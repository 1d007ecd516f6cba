/** The header shift of enrich_bill_data (fbs/render/bill.py:160-175): for
    header_level = 4, 3, 2, 1 the HTML is passed through
    `.replace("<hK>", "<hK+1>").replace("</hK>", "</hK+1>")`. Proved here:
    the four passes together raise every h1..h4 tag by exactly one level in
    a single left-to-right sweep, leave all other text alone, and leave no
    h1 tag behind. */
module Headers {
  import opened Wrappers
  import opened Strings

  function Digit(k: nat): char
    requires k <= 9
  {
    ('0' as int + k) as char
  }

  /** `f"<h{k}>"` */
  function OpenTag(k: nat): string
    requires k <= 9
  {
    ['<', 'h', Digit(k), '>']
  }

  /** `f"</h{k}>"` */
  function CloseTag(k: nat): string
    requires k <= 9
  {
    ['<', '/', 'h', Digit(k), '>']
  }

  /** The loop body for `header_level == k`. */
  function ShiftLevel(s: string, k: nat): string
    requires 1 <= k <= 4
  {
    Replace(Replace(s, OpenTag(k), OpenTag(k + 1)), CloseTag(k), CloseTag(k + 1))
  }

  /** The loop bodies for levels n, n - 1, ..., 1, in that order. */
  function ShiftLevels(s: string, n: nat): string
    requires n <= 4
    decreases n
  {
    if n == 0 then s else ShiftLevels(ShiftLevel(s, n), n - 1)
  }

  /** The `for header_level in range(4, 0, -1)` loop applied to one HTML string. */
  method ShiftHeaders(html: string) returns (r: string)
    ensures r == ShiftedOnce(html)
  {
    r := html;
    var level := 4;
    while level > 0
      invariant 0 <= level <= 4
      invariant ShiftLevels(r, level) == ShiftLevels(html, 4)
    {
      r := Replace(r, OpenTag(level), OpenTag(level + 1));
      r := Replace(r, CloseTag(level), CloseTag(level + 1));
      level := level - 1;
    }
    ShiftMatchesOnce(html);
  }

  // ---------------------------------------------------------------------
  // The reference: one sweep that raises each tag once

  /** `<hK>` (closing false) or `</hK>` (closing true). */
  datatype Tag = Tag(closing: bool, level: nat)

  function TagText(t: Tag): string
    requires t.level <= 9
  {
    if t.closing then CloseTag(t.level) else OpenTag(t.level)
  }

  function Raise(t: Tag): Tag
  {
    Tag(t.closing, t.level + 1)
  }

  /** The h1..h4 tag that `s` starts with, if any. */
  function TagAt(s: string): (r: Option<Tag>)
    ensures r.Some? ==> 1 <= r.value.level <= 4 && OccursAt(s, TagText(r.value), 0)
  {
    if |s| >= 4 && s[0] == '<' && s[1] == 'h' && '1' <= s[2] <= '4' && s[3] == '>' then
      Some(Tag(false, s[2] as int - '0' as int))
    else if |s| >= 5 && s[0] == '<' && s[1] == '/' && s[2] == 'h' && '1' <= s[3] <= '4' && s[4] == '>' then
      Some(Tag(true, s[3] as int - '0' as int))
    else None
  }

  /** The intended effect: every `<hK>` and `</hK>` with K in 1..4 becomes
      `<hK+1>` / `</hK+1>`, scanning left to right without revisiting the
      output; every other character is copied. */
  function ShiftedOnce(s: string): string
    decreases |s|
  {
    if s == [] then []
    else match TagAt(s)
      case Some(t) => TagText(Raise(t)) + ShiftedOnce(s[|TagText(t)|..])
      case None => [s[0]] + ShiftedOnce(s[1..])
  }

  /** A string starts with a tag's text exactly when TagAt reports that tag. */
  lemma TagAtIff(s: string, t: Tag)
    requires 1 <= t.level <= 4
    ensures TagAt(s) == Some(t) <==> OccursAt(s, TagText(t), 0)
  {
    if OccursAt(s, TagText(t), 0) {
      var p := TagText(t);
      assert forall i :: 0 <= i < |p| ==> s[i] == p[i];
    }
  }

  // ---------------------------------------------------------------------
  // Strings cut at '<'

  predicate NoLt(s: string)
  {
    forall i :: 0 <= i < |s| ==> s[i] != '<'
  }

  /** A non-empty string whose only '<' is its first character: every tag. */
  predicate LtLed(p: string)
  {
    |p| > 0 && p[0] == '<' && NoLt(p[1..])
  }

  predicate EmptyOrLt(s: string)
  {
    s == [] || s[0] == '<'
  }

  lemma TagsLtLed(k: nat)
    requires k <= 9
    ensures LtLed(OpenTag(k)) && LtLed(CloseTag(k))
  {
    assert OpenTag(k)[1..] == ['h', Digit(k), '>'];
    assert CloseTag(k)[1..] == ['/', 'h', Digit(k), '>'];
  }

  /** The index of the first '<' at or after i, or |s|. */
  function NextLt(s: string, i: nat): (j: nat)
    requires i <= |s|
    ensures i <= j <= |s|
    ensures forall k :: i <= k < j ==> s[k] != '<'
    ensures j < |s| ==> s[j] == '<'
    decreases |s| - i
  {
    if i == |s| || s[i] == '<' then i else NextLt(s, i + 1)
  }

  /** An occurrence of a '<'-led pattern at the start of a + b, where b is
      empty or starts with '<', ends inside a. */
  lemma MatchWithin(a: string, b: string, p: string)
    requires LtLed(p) && EmptyOrLt(b) && a != []
    ensures OccursAt(a + b, p, 0) ==> |p| <= |a|
  {
    if OccursAt(a + b, p, 0) && b != [] {
      assert (a + b)[|a|] == '<';
      assert forall i :: 1 <= i < |p| ==> p[i] == p[1..][i - 1];
      assert forall i :: 0 <= i < |p| ==> (a + b)[i] == p[i];
    }
  }

  lemma {:induction false} ReplaceNoLt(s: string, pat: string, rep: string)
    requires LtLed(pat) && NoLt(s)
    ensures Replace(s, pat, rep) == s
    decreases |s|
  {
    if |s| >= |pat| {
      assert s[..|pat|][0] == s[0];
      ReplaceNoLt(s[1..], pat, rep);
      assert [s[0]] + s[1..] == s;
    }
  }

  lemma ReplaceKeepsLt(b: string, pat: string, rep: string)
    requires LtLed(pat) && LtLed(rep) && EmptyOrLt(b)
    ensures EmptyOrLt(Replace(b, pat, rep))
  {
  }

  /** Replacing a '<'-led pattern distributes over a cut just before a '<'. */
  lemma {:induction false} ReplaceSplit(a: string, b: string, pat: string, rep: string)
    requires LtLed(pat) && EmptyOrLt(b)
    ensures Replace(a + b, pat, rep) == Replace(a, pat, rep) + Replace(b, pat, rep)
    decreases |a|
  {
    var s := a + b;
    if a == [] {
      assert s == b;
    } else if b == [] {
      assert s == a;
    } else if |s| >= |pat| {
      MatchWithin(a, b, pat);
      if s[..|pat|] == pat {
        assert a[..|pat|] == pat;
        assert s[|pat|..] == a[|pat|..] + b;
        ReplaceSplit(a[|pat|..], b, pat, rep);
      } else {
        assert s[1..] == a[1..] + b;
        ReplaceSplit(a[1..], b, pat, rep);
        if |a| >= |pat| {
          assert a[..|pat|] == s[..|pat|];
        } else {
          assert [a[0]] + a[1..] == a;
        }
      }
    }
  }

  lemma LevelSplit(a: string, b: string, k: nat)
    requires 1 <= k <= 4 && EmptyOrLt(b)
    ensures ShiftLevel(a + b, k) == ShiftLevel(a, k) + ShiftLevel(b, k)
    ensures EmptyOrLt(ShiftLevel(b, k))
  {
    TagsLtLed(k);
    TagsLtLed(k + 1);
    var a1, b1 := Replace(a, OpenTag(k), OpenTag(k + 1)), Replace(b, OpenTag(k), OpenTag(k + 1));
    ReplaceSplit(a, b, OpenTag(k), OpenTag(k + 1));
    ReplaceKeepsLt(b, OpenTag(k), OpenTag(k + 1));
    ReplaceSplit(a1, b1, CloseTag(k), CloseTag(k + 1));
    ReplaceKeepsLt(b1, CloseTag(k), CloseTag(k + 1));
  }

  lemma {:induction false} LevelsSplit(a: string, b: string, n: nat)
    requires n <= 4 && EmptyOrLt(b)
    ensures ShiftLevels(a + b, n) == ShiftLevels(a, n) + ShiftLevels(b, n)
    decreases n
  {
    if n > 0 {
      LevelSplit(a, b, n);
      LevelsSplit(ShiftLevel(a, n), ShiftLevel(b, n), n - 1);
    }
  }

  lemma {:induction false} LevelsNoLt(s: string, n: nat)
    requires n <= 4 && NoLt(s)
    ensures ShiftLevels(s, n) == s
    decreases n
  {
    if n > 0 {
      TagsLtLed(n);
      ReplaceNoLt(s, OpenTag(n), OpenTag(n + 1));
      ReplaceNoLt(s, CloseTag(n), CloseTag(n + 1));
      LevelsNoLt(s, n - 1);
    }
  }

  /** A piece of the cut: a '<' and no other. */
  predicate Chunk(c: string)
  {
    |c| > 0 && c[0] == '<' && NoLt(c[1..])
  }

  /** On a piece, a '<'-led pattern can only occur at the start. */
  lemma ReplaceChunk(c: string, pat: string, rep: string)
    requires LtLed(pat) && Chunk(c)
    ensures Replace(c, pat, rep) == if OccursAt(c, pat, 0) then rep + c[|pat|..] else c
  {
    if OccursAt(c, pat, 0) {
      assert c[|pat|..] == c[1..][|pat| - 1..];
      ReplaceNoLt(c[|pat|..], pat, rep);
    } else if |c| >= |pat| {
      ReplaceNoLt(c[1..], pat, rep);
      assert [c[0]] + c[1..] == c;
    }
  }

  /** The piece `c` with its leading tag raised, when it has one of level at most n. */
  function RaisedUpTo(c: string, n: nat): string
  {
    match TagAt(c)
    case Some(t) => if t.level <= n then TagText(Raise(t)) + c[|TagText(t)|..] else c
    case None => c
  }

  lemma ChunkLevel(c: string, k: nat)
    requires Chunk(c) && 1 <= k <= 4
    ensures ShiftLevel(c, k) == if TagAt(c).Some? && TagAt(c).value.level == k then RaisedUpTo(c, k) else c
  {
    TagAtIff(c, Tag(false, k));
    TagAtIff(c, Tag(true, k));
    if OccursAt(c, OpenTag(k), 0) {
      LevelOnOpen(c, k);
    } else {
      LevelOnOther(c, k);
    }
  }

  /** A piece led by `<hk>`: the first replace raises it, the second finds nothing. */
  lemma LevelOnOpen(c: string, k: nat)
    requires Chunk(c) && 1 <= k <= 4 && OccursAt(c, OpenTag(k), 0)
    ensures ShiftLevel(c, k) == OpenTag(k + 1) + c[4..]
  {
    TagsLtLed(k);
    TagsLtLed(k + 1);
    var c1 := Replace(c, OpenTag(k), OpenTag(k + 1));
    ReplaceChunk(c, OpenTag(k), OpenTag(k + 1));
    assert c1 == OpenTag(k + 1) + c[4..];
    assert c1[1..] == OpenTag(k + 1)[1..] + c[1..][3..];
    assert c1[1] == 'h';
    ReplaceChunk(c1, CloseTag(k), CloseTag(k + 1));
  }

  /** A piece not led by `<hk>`: the first replace changes nothing. */
  lemma LevelOnOther(c: string, k: nat)
    requires Chunk(c) && 1 <= k <= 4 && !OccursAt(c, OpenTag(k), 0)
    ensures ShiftLevel(c, k) == if OccursAt(c, CloseTag(k), 0) then CloseTag(k + 1) + c[5..] else c
  {
    TagsLtLed(k);
    ReplaceChunk(c, OpenTag(k), OpenTag(k + 1));
    ReplaceChunk(c, CloseTag(k), CloseTag(k + 1));
  }

  /** Raising the leading tag of a piece gives a piece that the lower levels leave alone. */
  lemma RaisedChunk(c: string, t: Tag)
    requires Chunk(c) && TagAt(c) == Some(t)
    ensures Chunk(RaisedUpTo(c, t.level))
    ensures RaisedUpTo(RaisedUpTo(c, t.level), t.level - 1) == RaisedUpTo(c, t.level)
  {
    var rest := c[|TagText(t)|..];
    assert c[1..][|TagText(t)| - 1..] == rest;
    RaisedTagAt(t, rest);
  }

  /** A freshly raised tag: either again h1..h4 one level up, or h5. */
  lemma RaisedTagAt(t: Tag, rest: string)
    requires 1 <= t.level <= 4 && NoLt(rest)
    ensures Chunk(TagText(Raise(t)) + rest)
    ensures TagAt(TagText(Raise(t)) + rest) == if t.level < 4 then Some(Raise(t)) else None
  {
    var p := TagText(Raise(t));
    TagsLtLed(t.level + 1);
    assert (p + rest)[1..] == p[1..] + rest;
    if t.level < 4 {
      TagAtIff(p + rest, Raise(t));
      assert (p + rest)[..|p|] == p;
    }
  }

  lemma {:induction false} ChunkLevels(c: string, n: nat)
    requires Chunk(c) && n <= 4
    ensures ShiftLevels(c, n) == RaisedUpTo(c, n)
    decreases n
  {
    if n > 0 {
      ChunkLevel(c, n);
      match TagAt(c)
      case Some(t) =>
        if t.level == n {
          var c' := RaisedUpTo(c, n);
          RaisedChunk(c, t);
          ChunkLevels(c', n - 1);
        } else {
          ChunkLevels(c, n - 1);
        }
      case None =>
        ChunkLevels(c, n - 1);
    }
  }

  lemma {:induction false} OnceNoLt(s: string)
    requires NoLt(s)
    ensures ShiftedOnce(s) == s
    decreases |s|
  {
    if s != [] {
      OnceNoLt(s[1..]);
      assert [s[0]] + s[1..] == s;
    }
  }

  lemma OnceChunk(c: string)
    requires Chunk(c)
    ensures ShiftedOnce(c) == RaisedUpTo(c, 4)
  {
    match TagAt(c)
    case Some(t) =>
      assert c[|TagText(t)|..] == c[1..][|TagText(t)| - 1..];
      OnceNoLt(c[|TagText(t)|..]);
    case None =>
      OnceNoLt(c[1..]);
      assert [c[0]] + c[1..] == c;
  }

  lemma TagAtPrefix(a: string, b: string)
    ensures TagAt(a).Some? ==> TagAt(a + b) == TagAt(a)
  {
    if TagAt(a).Some? {
      var t := TagAt(a).value;
      TagAtIff(a, t);
      TagAtIff(a + b, t);
      assert (a + b)[..|TagText(t)|] == a[..|TagText(t)|];
    }
  }

  lemma TagWithin(a: string, b: string)
    requires EmptyOrLt(b) && a != []
    ensures TagAt(a + b).Some? ==> |TagText(TagAt(a + b).value)| <= |a|
  {
    if TagAt(a + b).Some? {
      var t := TagAt(a + b).value;
      TagsLtLed(t.level);
      MatchWithin(a, b, TagText(t));
    }
  }

  /** The reference sweep also distributes over a cut just before a '<'. */
  lemma {:induction false} OnceSplit(a: string, b: string)
    requires EmptyOrLt(b)
    ensures ShiftedOnce(a + b) == ShiftedOnce(a) + ShiftedOnce(b)
    decreases |a|
  {
    if a == [] {
      assert a + b == b;
    } else {
      TagWithin(a, b);
      var s := a + b;
      match TagAt(s)
      case Some(t) =>
        var l := |TagText(t)|;
        var rest := a[l..];
        assert s[l..] == rest + b;
        OnceSplit(rest, b);
        TagOfPrefix(a, b, t);
        OnceTag(s, t);
        OnceTag(a, t);
        Regroup(TagText(Raise(t)), ShiftedOnce(rest), ShiftedOnce(b));
      case None =>
        var rest := a[1..];
        assert s[1..] == rest + b;
        OnceSplit(rest, b);
        TagAtPrefix(a, b);
        OnceChar(s);
        OnceChar(a);
        Regroup([a[0]], ShiftedOnce(rest), ShiftedOnce(b));
    }
  }

  lemma Regroup(p: string, x: string, y: string)
    ensures p + (x + y) == (p + x) + y
  {
  }

  lemma OnceTag(s: string, t: Tag)
    requires TagAt(s) == Some(t)
    ensures ShiftedOnce(s) == TagText(Raise(t)) + ShiftedOnce(s[|TagText(t)|..])
  {
  }

  lemma OnceChar(s: string)
    requires s != [] && TagAt(s).None?
    ensures ShiftedOnce(s) == [s[0]] + ShiftedOnce(s[1..])
  {
  }

  lemma TagOfPrefix(a: string, b: string, t: Tag)
    requires TagAt(a + b) == Some(t) && |TagText(t)| <= |a|
    ensures TagAt(a) == Some(t)
  {
    TagAtIff(a, t);
    TagAtIff(a + b, t);
    assert a[..|TagText(t)|] == (a + b)[..|TagText(t)|];
  }

  /** The four passes equal the one-sweep reference. */
  lemma {:induction false} ShiftMatchesOnce(s: string)
    ensures ShiftLevels(s, 4) == ShiftedOnce(s)
    decreases |s|
  {
    if s == [] {
      PieceMatches(s);
    } else {
      var j := NextLt(s, 1);
      var c, rest := s[..j], s[j..];
      assert s == c + rest;
      if s[0] == '<' {
        assert c[1..] == s[1..j];
        assert Chunk(c);
      }
      PieceMatches(c);
      ShiftMatchesOnce(rest);
      LevelsSplit(c, rest, 4);
      OnceSplit(c, rest);
    }
  }

  /** On a piece the four passes and the sweep agree. */
  lemma PieceMatches(c: string)
    requires Chunk(c) || NoLt(c)
    ensures ShiftLevels(c, 4) == ShiftedOnce(c)
  {
    if Chunk(c) {
      ChunkLevels(c, 4);
      OnceChunk(c);
    } else {
      LevelsNoLt(c, 4);
      OnceNoLt(c);
    }
  }

  // ---------------------------------------------------------------------
  // No h1 tag survives

  /** Neither `"<h1>" in s` nor `"</h1>" in s`. */
  predicate FreeOfLevelOne(s: string)
  {
    !Contains(s, OpenTag(1)) && !Contains(s, CloseTag(1))
  }

  lemma OccursShift(s: string, p: string, i: nat)
    requires i <= |s|
    ensures OccursAt(s, p, i) <==> OccursAt(s[i..], p, 0)
  {
    if i + |p| <= |s| {
      assert s[i..][0..|p|] == s[i..i + |p|];
    }
  }

  lemma FreeSplit(x: string, y: string)
    requires EmptyOrLt(y) && FreeOfLevelOne(x) && FreeOfLevelOne(y)
    ensures FreeOfLevelOne(x + y)
  {
    TagsLtLed(1);
    forall i: nat | i <= |x + y| ensures !OccursAt(x + y, OpenTag(1), i) && !OccursAt(x + y, CloseTag(1), i) {
      if i < |x| {
        assert (x + y)[i..] == x[i..] + y;
        OccursShift(x + y, OpenTag(1), i);
        OccursShift(x + y, CloseTag(1), i);
        OccursShift(x, OpenTag(1), i);
        OccursShift(x, CloseTag(1), i);
        MatchWithin(x[i..], y, OpenTag(1));
        MatchWithin(x[i..], y, CloseTag(1));
      } else {
        assert (x + y)[i..] == y[i - |x|..];
        OccursShift(x + y, OpenTag(1), i);
        OccursShift(x + y, CloseTag(1), i);
        OccursShift(y, OpenTag(1), i - |x|);
        OccursShift(y, CloseTag(1), i - |x|);
      }
    }
  }

  /** A piece that does not start with an h1 tag contains none. */
  lemma ChunkFree(x: string)
    requires Chunk(x) || NoLt(x)
    requires !OccursAt(x, OpenTag(1), 0) && !OccursAt(x, CloseTag(1), 0)
    ensures FreeOfLevelOne(x)
  {
    TagsLtLed(1);
    forall i: nat | 0 < i <= |x|
      ensures !OccursAt(x, OpenTag(1), i) && !OccursAt(x, CloseTag(1), i)
    {
      if i < |x| {
        assert x[i] == x[1..][i - 1];
        NotAtOther(x, OpenTag(1), i);
        NotAtOther(x, CloseTag(1), i);
      }
    }
  }

  /** A '<'-led pattern does not occur at a character other than '<'. */
  lemma NotAtOther(x: string, p: string, i: nat)
    requires i < |x| && x[i] != '<' && LtLed(p)
    ensures !OccursAt(x, p, i)
  {
    if i + |p| <= |x| {
      assert x[i..i + |p|][0] == x[i];
    }
  }

  lemma RaisedPieceFree(c: string)
    requires Chunk(c)
    ensures FreeOfLevelOne(RaisedUpTo(c, 4))
  {
    var x := RaisedUpTo(c, 4);
    match TagAt(c)
    case Some(t) =>
      RaisedTagAt(t, c[|TagText(t)|..]);
      var p := TagText(Raise(t));
      assert x[..|p|] == p;
      if t.closing {
        assert x[1] == '/';
        assert x[3] == Digit(t.level + 1);
      } else {
        assert x[1] == 'h';
        assert x[2] == Digit(t.level + 1);
      }
      ChunkFree(x);
    case None =>
      TagAtIff(c, Tag(false, 1));
      TagAtIff(c, Tag(true, 1));
      ChunkFree(x);
  }

  lemma OnceFirst(s: string)
    requires s != []
    ensures ShiftedOnce(s) != [] && ShiftedOnce(s)[0] == s[0]
  {
  }

  /** After the shift the HTML holds no `<h1>` and no `</h1>`. */
  lemma {:induction false} NoLevelOneLeft(s: string)
    ensures FreeOfLevelOne(ShiftedOnce(s))
    decreases |s|
  {
    if s == [] {
      ChunkFree([]);
    } else {
      var j := NextLt(s, 1);
      var c, rest := s[..j], s[j..];
      assert s == c + rest;
      OnceSplit(c, rest);
      NoLevelOneLeft(rest);
      if rest != [] {
        OnceFirst(rest);
      }
      if s[0] == '<' {
        assert c[1..] == s[1..j];
        OnceChunk(c);
        RaisedPieceFree(c);
      } else {
        OnceNoLt(c);
        TagsLtLed(1);
        ChunkFree(c);
      }
      FreeSplit(ShiftedOnce(c), ShiftedOnce(rest));
    }
  }
}
