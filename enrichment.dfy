/** The parts of enrich_bill_data (fbs/render/bill.py:81-195) that do not
    depend on code outside this repository: the nine decile fields, the
    entity counts, the commentary rendering with its header shift, the
    keyword string, the version description and the download URLs. The ARI
    formulas, markdown rendering, the normalisation `lower().strip()` and
    get_bill_slug are parameters. */
module Enrichment {
  import opened Wrappers
  import opened Strings
  import opened Deciles
  import opened Headers

  // ---------------------------------------------------------------------
  // Decile fields (bill.py:95-136)

  /** The metrics that receive a `<metric>_decile` field, in source order. */
  const DecileMetrics: seq<string> := [
    "num_characters", "num_tokens", "num_sentences", "num_sections",
    "avg_token_length", "avg_sentence_length", "token_entropy",
    "ari_raw", "ari_years_education"
  ]

  /** A KeyError on `bill_data[metric]` or `bill_stats[metric]`. */
  datatype EnrichError = MissingKey(key: string)

  function DecileField(metric: string): string
  {
    metric + "_decile"
  }

  lemma DecileFieldInjective(a: string, b: string)
    requires DecileField(a) == DecileField(b)
    ensures a == b
  {
    assert a == DecileField(a)[..|a|];
    assert b == DecileField(b)[..|b|];
  }

  /** The decile assignments for `metrics` in order; the first metric missing
      from the bill or from the statistics raises. */
  function DecileFields(metrics: seq<string>, bill: map<string, real>, deciles: map<string, seq<real>>)
    : Result<map<string, nat>, EnrichError>
    decreases |metrics|
  {
    if metrics == [] then Ok(map[])
    else
      var m := metrics[0];
      if m !in bill || m !in deciles then Err(MissingKey(m))
      else
        match DecileFields(metrics[1..], bill, deciles)
        case Err(e) => Err(e)
        case Ok(fields) => Ok(fields[DecileField(m) := Bucket(bill[m], deciles[m])])
  }

  /** The assignments succeed exactly when every metric is in the bill and
      in the statistics. */
  lemma {:induction false} DecileFieldsOk(metrics: seq<string>, bill: map<string, real>, deciles: map<string, seq<real>>)
    ensures DecileFields(metrics, bill, deciles).Ok? <==> forall m :: m in metrics ==> m in bill && m in deciles
    decreases |metrics|
  {
    if metrics != [] {
      DecileFieldsOk(metrics[1..], bill, deciles);
      assert forall n :: n in metrics <==> n == metrics[0] || n in metrics[1..];
    }
  }

  /** Otherwise the first missing metric is reported. */
  lemma {:induction false} DecileFieldsFailure(metrics: seq<string>, bill: map<string, real>, deciles: map<string, seq<real>>)
    requires DecileFields(metrics, bill, deciles).Err?
    ensures exists i :: (0 <= i < |metrics| && DecileFields(metrics, bill, deciles).error == MissingKey(metrics[i])
                        && (metrics[i] !in bill || metrics[i] !in deciles)
                        && forall k :: 0 <= k < i ==> metrics[k] in bill && metrics[k] in deciles)
    decreases |metrics|
  {
    var m := metrics[0];
    if m in bill && m in deciles {
      var tail := metrics[1..];
      DecileFieldsFailure(tail, bill, deciles);
      var e := DecileFields(tail, bill, deciles).error;
      var i :| 0 <= i < |tail| && e == MissingKey(tail[i])
               && (tail[i] !in bill || tail[i] !in deciles)
               && forall k :: 0 <= k < i ==> tail[k] in bill && tail[k] in deciles;
      assert metrics[i + 1] == tail[i];
      assert forall k :: 1 <= k <= i ==> metrics[k] == tail[k - 1];
    }
  }

  /** On success there is one field per metric, holding that metric's bucket. */
  lemma {:induction false} DecileFieldsValues(metrics: seq<string>, bill: map<string, real>, deciles: map<string, seq<real>>)
    requires forall m :: m in metrics ==> m in bill && m in deciles
    ensures DecileFields(metrics, bill, deciles).Ok?
    ensures var r := DecileFields(metrics, bill, deciles).value;
      && r.Keys == (set m | m in metrics :: DecileField(m))
      && forall m :: m in metrics ==> r[DecileField(m)] == Bucket(bill[m], deciles[m])
    decreases |metrics|
  {
    if metrics != [] {
      var m := metrics[0];
      DecileFieldsValues(metrics[1..], bill, deciles);
      assert forall n :: n in metrics <==> n == m || n in metrics[1..];
      forall n | n in metrics[1..] && DecileField(n) == DecileField(m) ensures n == m {
        DecileFieldInjective(n, m);
      }
    }
  }

  /** Lines 95-96: `bill_data` with the ARI score and its grade level
      recomputed; `ari` and `years` stand for get_ari_raw and
      get_ari_years_education. */
  function Scored(bill: map<string, real>, ari: map<string, real> -> real, years: real -> real)
    : (s: map<string, real>)
    ensures s.Keys == bill.Keys + {"ari_raw", "ari_years_education"}
    ensures s["ari_raw"] == ari(bill) && s["ari_years_education"] == years(ari(bill))
    ensures forall k :: k in bill && k != "ari_raw" && k != "ari_years_education" ==> s[k] == bill[k]
  {
    bill["ari_raw" := ari(bill)]["ari_years_education" := years(ari(bill))]
  }

  /** Lines 95-136: every metric of the scored bill is placed in its decile
      of the loaded statistics. */
  function EnrichDeciles(bill: map<string, real>, stats: map<string, LoadedStats>,
                         ari: map<string, real> -> real, years: real -> real)
    : (r: Result<map<string, nat>, EnrichError>)
    ensures r.Ok? <==> forall m :: m in DecileMetrics ==> m in Scored(bill, ari, years) && m in stats
    ensures r.Ok? ==> r.value.Keys == set m | m in DecileMetrics :: DecileField(m)
    ensures r.Ok? ==> forall m :: m in DecileMetrics ==>
              r.value[DecileField(m)] == Bucket(Scored(bill, ari, years)[m], stats[m].deciles)
  {
    var deciles := map m | m in stats :: stats[m].deciles;
    var r := DecileFields(DecileMetrics, Scored(bill, ari, years), deciles);
    DecileFieldsOk(DecileMetrics, Scored(bill, ari, years), deciles);
    if r.Ok? then DecileFieldsValues(DecileMetrics, Scored(bill, ari, years), deciles); r else r
  }

  /** Every decile field lies in 1..10 once the statistics carry nine cut points. */
  lemma DecileFieldsInRange(metrics: seq<string>, bill: map<string, real>, deciles: map<string, seq<real>>)
    requires forall m :: m in deciles ==> |deciles[m]| == 9
    requires DecileFields(metrics, bill, deciles).Ok?
    ensures forall f :: f in DecileFields(metrics, bill, deciles).value ==>
              1 <= DecileFields(metrics, bill, deciles).value[f] <= 10
  {
    DecileFieldsOk(metrics, bill, deciles);
    DecileFieldsValues(metrics, bill, deciles);
    var r := DecileFields(metrics, bill, deciles).value;
    forall f | f in r ensures 1 <= r[f] <= 10 {
      var m :| m in metrics && f == DecileField(m);
      BucketOfNine(bill[m], deciles[m], 10);
    }
  }

  // ---------------------------------------------------------------------
  // Entity counts (bill.py:138-147)

  /** The entity lists of all sections, one after the other. */
  function Flatten(lists: seq<seq<string>>): seq<string>
    decreases |lists|
  {
    if lists == [] then [] else Flatten(lists[..|lists| - 1]) + lists[|lists| - 1]
  }

  /** The inner loop of lines 143-147: counts the entities of one section. */
  method CountSection(counts: map<string, nat>, ghost seen: seq<string>, filter: seq<string>,
                      normalise: string -> string, section: seq<string>) returns (updated: map<string, nat>)
    requires CountsOf(counts, seen, filter, normalise)
    ensures CountsOf(updated, seen + section, filter, normalise)
  {
    updated := counts;
    var j := 0;
    while j < |section|
      invariant 0 <= j <= |section|
      invariant CountsOf(updated, seen + section[..j], filter, normalise)
    {
      var entity := section[j];
      CountStep(updated, seen + section[..j], filter, normalise, entity);
      if normalise(entity) in filter {
        updated := Increment(updated, entity);
      }
      assert seen + section[..j + 1] == seen + section[..j] + [entity];
      j := j + 1;
    }
    assert section[..j] == section;
  }

  lemma FlattenSnoc(lists: seq<seq<string>>, i: nat)
    requires i < |lists|
    ensures Flatten(lists[..i + 1]) == Flatten(lists[..i]) + lists[i]
  {
    assert lists[..i + 1][..i] == lists[..i];
  }

  /** An entity is in the flattened lists exactly when it is in one of them. */
  lemma {:induction false} FlattenMembers(lists: seq<seq<string>>)
    ensures forall e :: e in Flatten(lists) <==> exists i :: 0 <= i < |lists| && e in lists[i]
    decreases |lists|
  {
    if lists != [] {
      var init := lists[..|lists| - 1];
      FlattenMembers(init);
      assert forall i :: 0 <= i < |init| ==> init[i] == lists[i];
    }
  }

  /** `[e.lower().strip() for e in bill_data["entities"]]` */
  function Normalised(entities: seq<string>, normalise: string -> string): (r: seq<string>)
    ensures |r| == |entities|
    ensures forall i :: 0 <= i < |r| ==> r[i] == normalise(entities[i])
  {
    seq(|entities|, i requires 0 <= i < |entities| => normalise(entities[i]))
  }

  /** `counts` is the Counter of the entities in `seen` that pass the filter. */
  ghost predicate CountsOf(counts: map<string, nat>, seen: seq<string>, filter: seq<string>, normalise: string -> string)
  {
    && (forall e :: e in counts <==> e in seen && normalise(e) in filter)
    && (forall e :: e in counts ==> counts[e] == multiset(seen)[e])
  }

  /** `entity_count[entity] += 1` on a Counter. */
  function Increment(counts: map<string, nat>, entity: string): map<string, nat>
  {
    counts[entity := (if entity in counts then counts[entity] else 0) + 1]
  }

  lemma CountStep(counts: map<string, nat>, seen: seq<string>, filter: seq<string>, normalise: string -> string, entity: string)
    requires CountsOf(counts, seen, filter, normalise)
    ensures CountsOf(if normalise(entity) in filter then Increment(counts, entity) else counts, seen + [entity], filter, normalise)
  {
    assert multiset(seen + [entity]) == multiset(seen) + multiset{entity};
    if normalise(entity) in filter && entity !in counts {
      assert entity !in seen;
    }
  }

  /** The Counter of lines 139-144: a section entity is counted, under its
      own spelling, whenever its normalised form is among the normalised
      bill-level entities. */
  method CountEntities(billEntities: seq<string>, sectionEntities: seq<seq<string>>, normalise: string -> string)
    returns (counts: map<string, nat>)
    ensures forall e :: e in counts <==> e in Flatten(sectionEntities) && normalise(e) in Normalised(billEntities, normalise)
    ensures forall e :: e in counts ==> counts[e] == multiset(Flatten(sectionEntities))[e]
  {
    var filter := Normalised(billEntities, normalise);
    counts := map[];
    ghost var seen: seq<string> := [];
    var i := 0;
    while i < |sectionEntities|
      invariant 0 <= i <= |sectionEntities|
      invariant seen == Flatten(sectionEntities[..i])
      invariant CountsOf(counts, seen, filter, normalise)
    {
      var section := sectionEntities[i];
      counts := CountSection(counts, seen, filter, normalise, section);
      seen := seen + section;
      FlattenSnoc(sectionEntities, i);
      i := i + 1;
    }
    assert sectionEntities[..i] == sectionEntities;
  }

  // ---------------------------------------------------------------------
  // Commentary rendering (bill.py:156, 160-175)

  /** `markdown.markdown` then the header shift, for the commentary and,
      when it is not None, the money commentary. */
  method RenderCommentaries(commentary: string, moneyCommentary: Option<string>, markdown: string -> string)
    returns (rendered: string, renderedMoney: Option<string>)
    ensures rendered == ShiftedOnce(markdown(commentary))
    ensures renderedMoney.None? <==> moneyCommentary.None?
    ensures moneyCommentary.Some? ==> renderedMoney == Some(ShiftedOnce(markdown(moneyCommentary.value)))
  {
    rendered := ShiftHeaders(markdown(commentary));
    if moneyCommentary.Some? {
      var shifted := ShiftHeaders(markdown(moneyCommentary.value));
      renderedMoney := Some(shifted);
    } else {
      renderedMoney := None;
    }
  }

  // ---------------------------------------------------------------------
  // Keywords, version and URLs (bill.py:178-193)

  const KeywordSeparator: string := ", "

  /** `", ".join(bill_data["keywords"])` */
  function KeywordString(keywords: seq<string>): string
  {
    Join(keywords, KeywordSeparator)
  }

  lemma FindAfterPart(a: string, rest: string)
    requires !Contains(a, KeywordSeparator)
    ensures Find(a + KeywordSeparator + rest, KeywordSeparator) == |a|
  {
    var s := a + KeywordSeparator + rest;
    assert OccursAt(s, KeywordSeparator, |a|) by {
      assert s[|a|..|a| + 2] == KeywordSeparator;
    }
    forall k: nat | k < |a| ensures !OccursAt(s, KeywordSeparator, k) {
      if k + 2 <= |a| {
        assert s[k..k + 2] == a[k..k + 2];
        assert !OccursAt(a, KeywordSeparator, k);
      } else {
        assert s[k + 1] == ',';
      }
    }
  }

  lemma SplitNoSeparator(a: string)
    requires !Contains(a, KeywordSeparator)
    ensures Split(a, KeywordSeparator) == [a]
  {
  }

  /** Splitting the keyword string at ", " gives the keywords back, provided
      there is at least one and none contains ", " itself. */
  lemma {:induction false} KeywordStringRoundTrip(keywords: seq<string>)
    requires |keywords| > 0
    requires forall i :: 0 <= i < |keywords| ==> !Contains(keywords[i], KeywordSeparator)
    ensures Split(KeywordString(keywords), KeywordSeparator) == keywords
    decreases |keywords|
  {
    if |keywords| == 1 {
      SplitNoSeparator(keywords[0]);
    } else {
      var a, tail := keywords[0], keywords[1..];
      var rest := Join(tail, KeywordSeparator);
      assert KeywordString(keywords) == a + KeywordSeparator + rest;
      FindAfterPart(a, rest);
      SplitAfter(a, KeywordSeparator, rest);
      assert forall i :: 0 <= i < |tail| ==> tail[i] == keywords[i + 1];
      KeywordStringRoundTrip(tail);
      assert keywords == [a] + tail;
    }
  }

  /** `BILL_VERSION_CODES.get(bill_data["bill_version"], "Unknown")`; the
      code table is a parameter. */
  function VersionDescription(codes: map<string, string>, version: string): (d: string)
    ensures version in codes ==> d == codes[version]
    ensures version !in codes ==> d == "Unknown"
  {
    if version in codes then codes[version] else "Unknown"
  }

  function PdfUrl(slug: string): string
  {
    slug + ".pdf"
  }

  function JsonUrl(slug: string): string
  {
    slug + ".json"
  }

  /** Each URL is the slug followed by its suffix, so the slug can be read
      back and two different slugs never share a URL; a PDF URL is never a
      JSON URL. */
  lemma UrlsDetermineSlug(slug: string, other: string)
    ensures PdfUrl(slug)[..|slug|] == slug && JsonUrl(slug)[..|slug|] == slug
    ensures PdfUrl(slug) == PdfUrl(other) ==> slug == other
    ensures JsonUrl(slug) == JsonUrl(other) ==> slug == other
    ensures PdfUrl(slug) != JsonUrl(other)
  {
    assert PdfUrl(slug)[..|slug|] == slug;
    assert JsonUrl(slug)[..|slug|] == slug;
    assert PdfUrl(other)[..|other|] == other;
    assert JsonUrl(other)[..|other|] == other;
    var p, j := PdfUrl(slug), JsonUrl(other);
    assert p[|p| - 1] == 'f' && j[|j| - 1] == 'n';
  }

  /** The download-related fields set at lines 178-193. */
  datatype Links = Links(keywordString: string, versionDescription: string, slug: string, pdfUrl: string, jsonUrl: string)

  /** The fields set at lines 178-193; `slug` is what get_bill_slug returns
      for the bill's legis_num, title and bill_version. Both URLs start with
      the slug and differ from each other, the version falls back to
      "Unknown", and the keyword string splits back into the keywords when
      none contains the separator. */
  function BillLinks(keywords: seq<string>, version: string, codes: map<string, string>, slug: string): (r: Links)
    ensures r.slug == slug
    ensures |r.pdfUrl| == |slug| + 4 && r.pdfUrl[..|slug|] == slug
    ensures |r.jsonUrl| == |slug| + 5 && r.jsonUrl[..|slug|] == slug
    ensures r.pdfUrl != r.jsonUrl
    ensures version in codes ==> r.versionDescription == codes[version]
    ensures version !in codes ==> r.versionDescription == "Unknown"
    ensures (|keywords| > 0 && forall i :: 0 <= i < |keywords| ==> !Contains(keywords[i], KeywordSeparator)) ==>
              Split(r.keywordString, KeywordSeparator) == keywords
  {
    UrlsDetermineSlug(slug, slug);
    KeywordsRecoverable(keywords);
    Links(KeywordString(keywords), VersionDescription(codes, version), slug, PdfUrl(slug), JsonUrl(slug))
  }

  lemma KeywordsRecoverable(keywords: seq<string>)
    ensures (|keywords| > 0 && forall i :: 0 <= i < |keywords| ==> !Contains(keywords[i], KeywordSeparator)) ==>
              Split(KeywordString(keywords), KeywordSeparator) == keywords
  {
    if |keywords| > 0 && forall i :: 0 <= i < |keywords| ==> !Contains(keywords[i], KeywordSeparator) {
      KeywordStringRoundTrip(keywords);
    }
  }
}
