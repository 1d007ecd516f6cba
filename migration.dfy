/** Model of fbs/commands/migrations/add_num_characters.py: for one cached
    bill record, fill in `num_characters` with the length of `text` where
    it is absent, on the record and on each of its sections. Reading and
    writing the gzip files is left out. */
module Migration {
  import opened Wrappers
  import opened Json

  const CountKey: string := "num_characters"

  /** KeyError on `d[key]`; `len` of a value that has none; a section that
      is not a dictionary; a `sections` value that cannot be iterated. */
  datatype MigrationError =
    | MissingKey(key: string)
    | NoLength(value: Json)
    | NotADict(value: Json)
    | NotIterable(value: Json)

  /** Lines 16-17 (and 20-21) on one dictionary. */
  function Filled(d: Record): (r: Result<Record, MigrationError>)
    ensures r.Ok? <==> CountKey in d || ("text" in d && Len(d["text"]).Some?)
    ensures r.Ok? ==> r.value.Keys == d.Keys + {CountKey}
    ensures r.Ok? ==> forall k :: k in d && k != CountKey ==> r.value[k] == d[k]
    ensures r.Ok? && CountKey in d ==> r.value == d
    ensures r.Ok? && CountKey !in d ==> r.value[CountKey] == JNum(Len(d["text"]).value as real)
    ensures CountKey !in d && "text" !in d ==> r == Err(MissingKey("text"))
  {
    if CountKey in d then Ok(d)
    else if "text" !in d then Err(MissingKey("text"))
    else
      match Len(d["text"])
      case None => Err(NoLength(d["text"]))
      case Some(n) => Ok(d[CountKey := JNum(n as real)])
  }

  /** The loop of lines 19-21 over a list of sections, up to the first
      section that raises. */
  function FilledItems(items: seq<Json>): (r: Result<seq<Json>, MigrationError>)
    ensures r.Ok? <==> forall i :: 0 <= i < |items| ==> items[i].JObj? && Filled(items[i].fields).Ok?
    ensures r.Ok? ==> (|r.value| == |items|
              && forall i :: 0 <= i < |items| ==> r.value[i] == JObj(Filled(items[i].fields).value))
    decreases |items|
  {
    if items == [] then Ok([])
    else
      var n := |items| - 1;
      match FilledItems(items[..n])
      case Err(e) => Err(e)
      case Ok(done) =>
        if !items[n].JObj? then Err(NotADict(items[n]))
        else
          match Filled(items[n].fields)
          case Err(e) => Err(e)
          case Ok(section) => Ok(done + [JObj(section)])
  }

  /** Lines 19-21 on the value of `data["sections"]`: a list of dictionaries
      is filled section by section; iterating an empty dictionary or string
      does nothing; the elements of a non-empty dictionary or string are
      strings, which cannot take a key; other values cannot be iterated. */
  function FilledSections(v: Json): Result<Json, MigrationError>
  {
    match v
    case JArr(items) =>
      (match FilledItems(items)
       case Err(e) => Err(e)
       case Ok(filled) => Ok(JArr(filled)))
    case JObj(m) => if m == map[] then Ok(v) else Err(NotADict(v))
    case JStr(s) => if s == "" then Ok(v) else Err(NotADict(v))
    case _ => Err(NotIterable(v))
  }

  /** Lines 13-21 for one record: the record first, then its sections. */
  function Backfill(data: Record): Result<Record, MigrationError>
  {
    match Filled(data)
    case Err(e) => Err(e)
    case Ok(top) =>
      if "sections" !in top then Err(MissingKey("sections"))
      else
        match FilledSections(top["sections"])
        case Err(e) => Err(e)
        case Ok(sections) => Ok(top["sections" := sections])
  }

  /** The migration of one record, updating the record and its sections
      step by step as lines 16-21 do. */
  method AddNumCharacters(data: Record) returns (r: Result<Record, MigrationError>)
    ensures r == Backfill(data)
  {
    var record := data;
    if CountKey !in record {
      if "text" !in record { return Err(MissingKey("text")); }
      var n := Len(record["text"]);
      if n.None? { return Err(NoLength(record["text"])); }
      record := record[CountKey := JNum(n.value as real)];
    }
    assert Filled(data) == Ok(record);
    if "sections" !in record { return Err(MissingKey("sections")); }
    var sections := record["sections"];
    if !sections.JArr? {
      var outcome := FilledSections(sections);
      if outcome.Err? { return Err(outcome.error); }
      assert record["sections" := sections] == record;
      return Ok(record);
    }
    var items := sections.items;
    var done: seq<Json> := [];
    for i := 0 to |items|
      invariant FilledItems(items[..i]) == Ok(done)
    {
      assert items[..i + 1][..i] == items[..i];
      if !items[i].JObj? {
        FilledItemsPrefix(items, i + 1);
        return Err(NotADict(items[i]));
      }
      var section := items[i].fields;
      if CountKey !in section {
        if "text" !in section {
          FilledItemsPrefix(items, i + 1);
          return Err(MissingKey("text"));
        }
        var n := Len(section["text"]);
        if n.None? {
          FilledItemsPrefix(items, i + 1);
          return Err(NoLength(section["text"]));
        }
        section := section[CountKey := JNum(n.value as real)];
      }
      done := done + [JObj(section)];
    }
    assert items[..|items|] == items;
    r := Ok(record["sections" := JArr(done)]);
  }

  /** A failure in a prefix of the sections is the failure of the whole list. */
  lemma {:induction false} FilledItemsPrefix(items: seq<Json>, n: nat)
    requires n <= |items| && FilledItems(items[..n]).Err?
    ensures FilledItems(items) == FilledItems(items[..n])
    decreases |items| - n
  {
    if n < |items| {
      var m := |items| - 1;
      assert items[..m][..n] == items[..n];
      FilledItemsPrefix(items[..m], n);
    } else {
      assert items[..n] == items;
    }
  }

  // ---------------------------------------------------------------------
  // What the migration promises

  /** The record gets `num_characters` (kept when present, else the length
      of its text) and nothing else of it changes apart from its sections. */
  lemma BackfillRecord(data: Record)
    requires Backfill(data).Ok?
    ensures var r := Backfill(data).value;
      && r.Keys == data.Keys + {CountKey}
      && (CountKey in data ==> r[CountKey] == data[CountKey])
      && (CountKey !in data ==> ("text" in data && Len(data["text"]).Some?
            && r[CountKey] == JNum(Len(data["text"]).value as real)))
      && (forall k :: k in data && k != CountKey && k != "sections" ==> r[k] == data[k])
  {
  }

  /** A list of sections keeps its length and order; each section gets
      `num_characters` the same way and keeps its other keys. */
  lemma BackfillSections(data: Record)
    requires Backfill(data).Ok? && "sections" in data && data["sections"].JArr?
    ensures var r := Backfill(data).value;
      var items := data["sections"].items;
      && r["sections"].JArr? && |r["sections"].items| == |items|
      && forall i :: 0 <= i < |items| ==>
           && items[i].JObj? && r["sections"].items[i].JObj?
           && var before, after := items[i].fields, r["sections"].items[i].fields;
           && after.Keys == before.Keys + {CountKey}
           && (CountKey in before ==> after[CountKey] == before[CountKey])
           && (CountKey !in before ==> ("text" in before && Len(before["text"]).Some?
                 && after[CountKey] == JNum(Len(before["text"]).value as real)))
           && (forall k :: k in before && k != CountKey ==> after[k] == before[k])
  {
    var top := Filled(data).value;
    assert top["sections"] == data["sections"];
  }

  /** A `sections` value that is not a list comes through unchanged. */
  lemma BackfillOtherSections(data: Record)
    requires Backfill(data).Ok? && "sections" in data && !data["sections"].JArr?
    ensures Backfill(data).value["sections"] == data["sections"]
  {
    var top := Filled(data).value;
    assert top["sections"] == data["sections"];
  }

  /** Running the migration on its own output changes nothing. */
  lemma BackfillIdempotent(data: Record)
    requires Backfill(data).Ok?
    ensures Backfill(Backfill(data).value) == Backfill(data)
  {
    var top := Filled(data).value;
    var r := Backfill(data).value;
    assert Filled(r) == Ok(r);
    var v := top["sections"];
    if v.JArr? {
      var filled := FilledItems(v.items).value;
      FilledItemsFilled(v.items);
      assert FilledItems(filled) == Ok(filled);
      assert r["sections" := JArr(filled)] == r;
    } else {
      assert r["sections" := v] == r;
    }
  }

  /** Filling a filled list of sections again changes nothing. */
  lemma FilledItemsFilled(items: seq<Json>)
    requires FilledItems(items).Ok?
    ensures FilledItems(FilledItems(items).value) == FilledItems(items)
  {
    var filled := FilledItems(items).value;
    forall i | 0 <= i < |filled| ensures filled[i].JObj? && Filled(filled[i].fields) == Ok(filled[i].fields) {
      assert CountKey in filled[i].fields;
    }
    var again := FilledItems(filled).value;
    assert again == filled;
  }

  /** The migration fails when a record or the first section that needs
      `num_characters` has no text. */
  lemma BackfillNeedsText(data: Record)
    ensures CountKey !in data && "text" !in data ==> Backfill(data) == Err(MissingKey("text"))
  {
  }

  lemma {:induction false} SectionNeedsText(items: seq<Json>, i: nat)
    requires i < |items| && items[i].JObj? && CountKey !in items[i].fields && "text" !in items[i].fields
    requires forall k :: 0 <= k < i ==> items[k].JObj? && Filled(items[k].fields).Ok?
    ensures FilledItems(items) == Err(MissingKey("text"))
    decreases |items|
  {
    var n := |items| - 1;
    if i < n {
      SectionNeedsText(items[..n], i);
    } else {
      assert FilledItems(items[..n]).Ok?;
    }
  }
}
