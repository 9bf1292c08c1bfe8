/** Single-pass expansion of `${NAME}` references (internal/config/env.go). */
module EnvExpansion {
  import opened Options
  import opened Unicode

  type Lookup = string -> Option<string>

  datatype Result =
    | Expanded(text: string)
    | UnclosedReference(index: nat)
    | EmptyName(index: nat)
    | MissingVariable(name: string)

  /** The pieces of an input: `c`, `$$`, `$${name}` and `${name}`. */
  datatype Segment = Literal(c: char) | Dollar | Escaped(name: string) | Var(name: string)

  /** How an input ends: completely read, or at a `${` that is never closed. */
  datatype Tail = Complete | Unclosed

  datatype Split = Split(segments: seq<Segment>, tail: Tail)

  function Source(g: Segment): string {
    match g
    case Literal(c) => [c]
    case Dollar => "$$"
    case Escaped(name) => "$${" + name + "}"
    case Var(name) => "${" + name + "}"
  }

  // ---- the grammar

  /** A segment may stand before the text that follows it. */
  predicate Legal(g: Segment, rest: string) {
    match g
    case Literal(c) => c == '$' ==> rest == "" || (rest[0] != '$' && rest[0] != '{')
    case Dollar => rest != "" && rest[0] == '{' ==> '}' !in rest
    case Escaped(name) => '}' !in name
    case Var(name) => '}' !in name
  }

  /** `segments` followed by `tail` is a reading of s. */
  predicate Reads(s: string, segments: seq<Segment>, tail: Tail)
    decreases segments
  {
    if segments == [] then
      if tail.Complete? then s == "" else |s| >= 2 && s[..2] == "${" && '}' !in s[2..]
    else
      var head := Source(segments[0]);
      && head <= s
      && Legal(segments[0], s[|head|..])
      && Reads(s[|head|..], segments[1..], tail)
  }

  /** The index of the first closing brace at or after i, or |s|. */
  function Close(s: string, i: nat): (r: nat)
    requires i <= |s|
    ensures i <= r <= |s|
    decreases |s| - i
  {
    if i == |s| || s[i] == '}' then i else Close(s, i + 1)
  }

  lemma {:induction false} CloseSpec(s: string, i: nat)
    requires i <= |s|
    ensures '}' !in s[i..Close(s, i)] && (Close(s, i) < |s| ==> s[Close(s, i)] == '}')
    decreases |s| - i
  {
    if i < |s| && s[i] != '}' {
      CloseSpec(s, i + 1);
      assert s[i..Close(s, i)] == [s[i]] + s[i + 1..Close(s, i)];
    }
  }

  lemma SliceLacks(s: string, i: nat, j: nat, k: nat)
    requires i <= j <= k <= |s| && '}' !in s[i..k]
    ensures '}' !in s[j..k]
  {
    forall n | 0 <= n < k - j ensures s[j..k][n] != '}' {
      assert s[j..k][n] == s[i..k][n + j - i];
    }
  }

  lemma CloseNowhere(s: string, i: nat)
    requires i <= |s|
    ensures '}' !in s[i..] <==> Close(s, i) == |s|
  {
    var r := Close(s, i);
    CloseSpec(s, i);
    if r == |s| {
      assert s[i..r] == s[i..];
    } else {
      assert s[i..][r - i] == '}';
    }
  }

  lemma {:induction false} CloseIsFirst(s: string, i: nat, j: nat)
    requires i <= j < |s| && '}' !in s[i..j] && s[j] == '}'
    ensures Close(s, i) == j
    decreases j - i
  {
    if i < j {
      assert s[i..j][0] == s[i];
      SliceLacks(s, i, i + 1, j);
      CloseIsFirst(s, i + 1, j);
    }
  }

  predicate StartsUnclosed(s: string) {
    |s| > 1 && s[0] == '$' && s[1] == '{' && Close(s, 2) == |s|
  }

  /** The segment the code takes at the start of a text. */
  function Head(s: string): Segment
    requires s != "" && !StartsUnclosed(s)
  {
    if |s| > 1 && s[0] == '$' && s[1] == '$' then
      if |s| > 2 && s[2] == '{' && Close(s, 2) < |s| then Escaped(s[3..Close(s, 2)]) else Dollar
    else if |s| > 1 && s[0] == '$' && s[1] == '{' then Var(s[2..Close(s, 2)])
    else Literal(s[0])
  }

  lemma HeadIsLegal(s: string)
    requires s != "" && !StartsUnclosed(s)
    ensures Source(Head(s)) <= s && Legal(Head(s), s[|Source(Head(s))|..])
  {
    var g := Head(s);
    match g {
      case Literal(c) => assert Source(g) == s[..1];
      case Dollar =>
        assert Source(g) == s[..2];
        CloseNowhere(s, 2);
      case Escaped(name) =>
        CloseSpec(s, 2);
        SliceLacks(s, 2, 3, Close(s, 2));
        assert Source(g) == s[..Close(s, 2) + 1];
      case Var(name) =>
        CloseSpec(s, 2);
        assert Source(g) == s[..Close(s, 2) + 1];
    }
  }

  lemma BracedParts(s: string, prefix: string, inner: string, rest: string)
    requires s == prefix + inner + "}" + rest
    ensures var k := |prefix| + |inner|;
      k < |s| && s[|prefix|..k] == inner && s[k] == '}'
  {
    var k := |prefix| + |inner|;
    assert (prefix + inner)[|prefix|..k] == inner;
    assert s[..k] == prefix + inner;
    assert s[|prefix|..k] == s[..k][|prefix|..];
  }

  lemma EscapedIsForced(s: string, name: string, rest: string)
    requires s == "$${" + name + "}" + rest && '}' !in name
    ensures !StartsUnclosed(s) && Head(s) == Escaped(name)
  {
    var k := 3 + |name|;
    assert "$$" + ("{" + name) == "$${" + name;
    BracedParts(s, "$$", "{" + name, rest);
    assert s[3..k] == s[2..k][1..] == name;
    CloseIsFirst(s, 2, k);
  }

  lemma VarIsForced(s: string, name: string, rest: string)
    requires s == "${" + name + "}" + rest && '}' !in name
    ensures !StartsUnclosed(s) && Head(s) == Var(name)
  {
    BracedParts(s, "${", name, rest);
    CloseIsFirst(s, 2, 2 + |name|);
  }

  /** The head of a legal reading is the one the code takes. */
  lemma HeadIsForced(s: string, g: Segment, rest: string)
    requires s == Source(g) + rest && Legal(g, rest)
    ensures !StartsUnclosed(s) && Head(s) == g
  {
    match g {
      case Literal(c) => assert |s| > 1 ==> s[1] == rest[0];
      case Dollar =>
        assert s[2..] == rest;
        CloseNowhere(s, 2);
      case Escaped(name) => EscapedIsForced(s, name, rest);
      case Var(name) => VarIsForced(s, name, rest);
    }
  }

  function Cons(g: Segment, rest: Split): Split {
    Split([g] + rest.segments, rest.tail)
  }

  /** The reading the code makes. */
  function Parse(s: string): Split
    decreases |s|
  {
    if s == "" then Split([], Complete)
    else if StartsUnclosed(s) then Split([], Unclosed)
    else
      HeadIsLegal(s);
      Cons(Head(s), Parse(s[|Source(Head(s))|..]))
  }

  /** Every input has the reading the code makes. */
  lemma {:induction false} ParseReads(s: string)
    ensures Reads(s, Parse(s).segments, Parse(s).tail)
    decreases |s|
  {
    if s != "" {
      if StartsUnclosed(s) {
        CloseNowhere(s, 2);
        assert s[..2] == "${";
      } else {
        HeadIsLegal(s);
        var rest := s[|Source(Head(s))|..];
        ParseReads(rest);
        assert Parse(s).segments[1..] == Parse(rest).segments;
      }
    }
  }

  /** The reading is unique. */
  lemma {:induction false} ReadingIsUnique(s: string, segments: seq<Segment>, tail: Tail)
    requires Reads(s, segments, tail)
    ensures Parse(s) == Split(segments, tail)
    decreases segments
  {
    if segments == [] {
      if tail.Unclosed? {
        assert s[0] == s[..2][0] && s[1] == s[..2][1];
        CloseNowhere(s, 2);
      }
    } else {
      var head := Source(segments[0]);
      PrefixSplit(head, s);
      HeadIsForced(s, segments[0], s[|head|..]);
      HeadIsLegal(s);
      ReadingIsUnique(s[|head|..], segments[1..], tail);
      assert segments == [segments[0]] + segments[1..];
    }
  }

  // ---- the value of a reading

  predicate Blank(name: string) {
    name == "" || (IsSpace(name[0]) && Blank(name[1..]))
  }

  function SegmentValue(g: Segment, lookup: Lookup, at: nat): Result {
    match g
    case Literal(c) => Expanded([c])
    case Dollar => Expanded("$")
    case Escaped(name) => Expanded("${" + name + "}")
    case Var(name) =>
      if Blank(name) then EmptyName(at)
      else if lookup(name).None? then MissingVariable(name)
      else Expanded(lookup(name).value)
  }

  function Prepend(text: string, r: Result): Result {
    if r.Expanded? then Expanded(text + r.text) else r
  }

  /** The concatenated values of the segments, or the first error from the left. */
  function Evaluate(p: Split, lookup: Lookup, at: nat): Result
    decreases p.segments
  {
    if p.segments == [] then if p.tail.Complete? then Expanded("") else UnclosedReference(at)
    else
      var v := SegmentValue(p.segments[0], lookup, at);
      if !v.Expanded? then v
      else Prepend(v.text, Evaluate(Split(p.segments[1..], p.tail), lookup, at + |Source(p.segments[0])|))
  }

  function Expand(s: string, lookup: Lookup): Result {
    Evaluate(Parse(s), lookup, 0)
  }

  lemma PrependTwice(a: string, b: string, r: Result)
    ensures Prepend(a, Prepend(b, r)) == Prepend(a + b, r)
  {
    if r.Expanded? {
      assert a + (b + r.text) == a + b + r.text;
    }
  }

  // ---- the loop

  /** What is left to produce when the text from index i on is `rest`. */
  function Remaining(rest: string, lookup: Lookup, i: nat): Result
    decreases |rest|
  {
    if rest == "" then Expanded("")
    else if StartsUnclosed(rest) then UnclosedReference(i)
    else
      HeadIsLegal(rest);
      var v := SegmentValue(Head(rest), lookup, i);
      var k := |Source(Head(rest))|;
      if v.Expanded? then Prepend(v.text, Remaining(rest[k..], lookup, i + k)) else v
  }

  lemma {:induction false} RemainingIsValue(rest: string, lookup: Lookup, i: nat)
    ensures Remaining(rest, lookup, i) == Evaluate(Parse(rest), lookup, i)
    decreases |rest|
  {
    if rest != "" && !StartsUnclosed(rest) {
      HeadIsLegal(rest);
      var k := |Source(Head(rest))|;
      RemainingIsValue(rest[k..], lookup, i + k);
      assert Parse(rest).segments[1..] == Parse(rest[k..]).segments;
    }
  }

  /** Taking the head moves the work past its source characters. */
  lemma Advance(rest: string, lookup: Lookup, i: nat, out: string)
    requires rest != "" && !StartsUnclosed(rest)
    ensures |Source(Head(rest))| <= |rest|
    ensures var v := SegmentValue(Head(rest), lookup, i);
      var k := |Source(Head(rest))|;
      Prepend(out, Remaining(rest, lookup, i)) ==
      if v.Expanded? then Prepend(out + v.text, Remaining(rest[k..], lookup, i + k)) else v
  {
    HeadIsLegal(rest);
    var v := SegmentValue(Head(rest), lookup, i);
    if v.Expanded? {
      var k := |Source(Head(rest))|;
      PrependTwice(out, v.text, Remaining(rest[k..], lookup, i + k));
    }
  }

  /** One iteration: the characters consumed at index i and what they yield. */
  method TakeSegment(rest: string, lookup: Lookup, i: nat) returns (k: nat, v: Result)
    requires rest != ""
    ensures StartsUnclosed(rest) ==> v == UnclosedReference(i)
    ensures !StartsUnclosed(rest) ==> k == |Source(Head(rest))| && v == SegmentValue(Head(rest), lookup, i)
  {
    if rest[0] == '$' {
      if |rest| > 1 && rest[1] == '$' {
        if |rest| > 2 && rest[2] == '{' {
          var end := Close(rest, 2);
          if end < |rest| {
            CloseSpec(rest, 2);
            assert rest[1..end + 1] == "${" + rest[3..end] + "}";
            return end + 1, Expanded(rest[1..end + 1]);
          }
        }
        return 2, Expanded("$");
      }
      if |rest| > 1 && rest[1] == '{' {
        var end := Close(rest, 2);
        if end == |rest| {
          return 0, UnclosedReference(i);
        }
        var name := rest[2..end];
        if Blank(name) {
          return end + 1, EmptyName(i);
        }
        var val := lookup(name);
        if val.None? {
          return end + 1, MissingVariable(name);
        }
        return end + 1, Expanded(val.value);
      }
    }
    return 1, Expanded([rest[0]]);
  }

  /** What the loop will return when it stands at `rest` with `buf` produced. */
  ghost function Outcome(buf: string, rest: string, lookup: Lookup, i: nat): Result {
    Prepend(buf, Remaining(rest, lookup, i))
  }

  /** One iteration. */
  method Iterate(buf: string, rest: string, lookup: Lookup, i: nat)
    returns (v: Result, buf': string, rest': string, i': nat)
    requires rest != ""
    ensures v.Expanded? ==> |rest'| < |rest| && Outcome(buf', rest', lookup, i') == Outcome(buf, rest, lookup, i)
    ensures !v.Expanded? ==> Outcome(buf, rest, lookup, i) == v
  {
    var k;
    k, v := TakeSegment(rest, lookup, i);
    buf', rest', i' := buf, rest, i;
    if !StartsUnclosed(rest) {
      Advance(rest, lookup, i, buf);
    }
    if v.Expanded? {
      buf', rest', i' := buf + v.text, rest[k..], i + k;
    }
  }

  lemma NothingRemains(lookup: Lookup, i: nat, buf: string)
    ensures Outcome(buf, "", lookup, i) == Expanded(buf)
  {
    assert buf + "" == buf;
  }

  lemma AllRemains(s: string, lookup: Lookup)
    ensures Outcome("", s, lookup, 0) == Expand(s, lookup)
  {
    RemainingIsValue(s, lookup, 0);
    var r := Remaining(s, lookup, 0);
    if r.Expanded? {
      assert "" + r.text == r.text;
    }
  }

  /** The loop computes the value of the unique reading; looked-up text is
      never read again.  `rest` is the text from index i on. */
  method ExpandEnv(s: string, lookup: Lookup) returns (r: Result)
    ensures r == Expand(s, lookup)
  {
    var buf, rest := "", s;
    var i: nat := 0;
    AllRemains(s, lookup);
    while rest != ""
      invariant Outcome(buf, rest, lookup, i) == Expand(s, lookup)
      decreases |rest|
    {
      r, buf, rest, i := Iterate(buf, rest, lookup, i);
      if !r.Expanded? {
        return;
      }
    }
    NothingRemains(lookup, i, buf);
    r := Expanded(buf);
  }

  // ---- what the value is

  /** What a segment adds to the output when nothing is wrong with it. */
  function Contribution(g: Segment, lookup: Lookup): string {
    match g
    case Literal(c) => [c]
    case Dollar => "$"
    case Escaped(name) => "${" + name + "}"
    case Var(name) => if lookup(name).Some? then lookup(name).value else ""
  }

  function Contributions(segments: seq<Segment>, lookup: Lookup): string {
    if segments == [] then "" else Contribution(segments[0], lookup) + Contributions(segments[1..], lookup)
  }

  /** A reference whose name is blank or not set. */
  predicate Offends(g: Segment, lookup: Lookup) {
    g.Var? && (Blank(g.name) || lookup(g.name).None?)
  }

  /** Where segment i begins in the input. */
  function Offset(segments: seq<Segment>, i: nat): nat
    requires i <= |segments|
  {
    if i == 0 then 0 else |Source(segments[0])| + Offset(segments[1..], i - 1)
  }

  /** i is the leftmost segment that offends, or the number of segments. */
  predicate FirstOffence(segments: seq<Segment>, lookup: Lookup, i: nat) {
    && i <= |segments|
    && (forall j :: 0 <= j < i ==> !Offends(segments[j], lookup))
    && (i < |segments| ==> Offends(segments[i], lookup))
  }

  /** The result that a reading should have. */
  predicate IsValue(segments: seq<Segment>, tail: Tail, lookup: Lookup, at: nat, i: nat, r: Result)
    requires i <= |segments|
  {
    if i < |segments| then
      && segments[i].Var?
      && r == if Blank(segments[i].name) then EmptyName(at + Offset(segments, i)) else MissingVariable(segments[i].name)
    else if tail.Unclosed? then r == UnclosedReference(at + Offset(segments, |segments|))
    else r == Expanded(Contributions(segments, lookup))
  }

  lemma ValueOfHead(g: Segment, lookup: Lookup, at: nat)
    ensures !Offends(g, lookup) ==> SegmentValue(g, lookup, at) == Expanded(Contribution(g, lookup))
    ensures Offends(g, lookup) ==>
      SegmentValue(g, lookup, at) == if Blank(g.name) then EmptyName(at) else MissingVariable(g.name)
  {
  }

  lemma EvaluateStep(segments: seq<Segment>, tail: Tail, lookup: Lookup, at: nat)
    requires segments != []
    ensures Evaluate(Split(segments, tail), lookup, at) ==
      if !SegmentValue(segments[0], lookup, at).Expanded? then SegmentValue(segments[0], lookup, at)
      else Prepend(SegmentValue(segments[0], lookup, at).text,
                   Evaluate(Split(segments[1..], tail), lookup, at + |Source(segments[0])|))
  {
  }

  lemma {:induction false} EvaluateMeans(segments: seq<Segment>, tail: Tail, lookup: Lookup, at: nat, i: nat)
    requires FirstOffence(segments, lookup, i)
    ensures IsValue(segments, tail, lookup, at, i, Evaluate(Split(segments, tail), lookup, at))
    decreases segments
  {
    if segments != [] {
      ValueOfHead(segments[0], lookup, at);
      EvaluateStep(segments, tail, lookup, at);
      if i > 0 {
        var rest := segments[1..];
        assert forall j :: 0 <= j < |rest| ==> rest[j] == segments[j + 1];
        EvaluateMeans(rest, tail, lookup, at + |Source(segments[0])|, i - 1);
      }
    }
  }

  /** The expansion of an input in terms of its reading alone: the text in which every
      reference is replaced by the value of its variable, if and only if the input is
      complete and every reference has a name that is set; otherwise the error of the
      leftmost offence, with its index in the input or its name. */
  lemma ExpandMeans(s: string, segments: seq<Segment>, tail: Tail, lookup: Lookup, i: nat)
    requires Reads(s, segments, tail) && FirstOffence(segments, lookup, i)
    ensures IsValue(segments, tail, lookup, 0, i, Expand(s, lookup))
    ensures Expand(s, lookup).Expanded? <==> i == |segments| && tail.Complete?
  {
    ReadingIsUnique(s, segments, tail);
    EvaluateMeans(segments, tail, lookup, 0, i);
  }

  /** Every reading has a leftmost offence in that sense. */
  lemma {:induction false} SomeFirstOffence(segments: seq<Segment>, lookup: Lookup) returns (i: nat)
    ensures FirstOffence(segments, lookup, i)
  {
    if segments == [] || Offends(segments[0], lookup) {
      i := 0;
    } else {
      var rest := segments[1..];
      i := SomeFirstOffence(rest, lookup);
      i := i + 1;
      assert forall j :: 0 < j < |segments| ==> segments[j] == rest[j - 1];
    }
  }

  /** Offset is an index into the input: segment i is found there. */
  lemma {:induction false} SegmentStandsAtOffset(s: string, segments: seq<Segment>, tail: Tail, i: nat)
    requires Reads(s, segments, tail) && i < |segments|
    ensures Offset(segments, i) <= |s| && Source(segments[i]) <= s[Offset(segments, i)..]
    decreases segments
  {
    if i > 0 {
      var head, rest := Source(segments[0]), segments[1..];
      SegmentStandsAtOffset(s[|head|..], rest, tail, i - 1);
      assert s[|head|..][Offset(rest, i - 1)..] == s[Offset(segments, i)..];
    }
  }

  // ---- consequences

  function References(segments: seq<Segment>): set<string> {
    set i | 0 <= i < |segments| && segments[i].Var? :: segments[i].name
  }

  /** The result depends only on the variables the input refers to. */
  lemma {:induction false} OnlyReferencesMatter(p: Split, f: Lookup, g: Lookup, at: nat)
    requires forall name :: name in References(p.segments) ==> f(name) == g(name)
    ensures Evaluate(p, f, at) == Evaluate(p, g, at)
    decreases p.segments
  {
    if p.segments != [] {
      var head := p.segments[0];
      var rest := Split(p.segments[1..], p.tail);
      assert head.Var? ==> head.name in References(p.segments);
      forall name | name in References(rest.segments) ensures name in References(p.segments) {
        var i :| 0 <= i < |rest.segments| && rest.segments[i].Var? && rest.segments[i].name == name;
        assert p.segments[i + 1].name == name;
      }
      OnlyReferencesMatter(rest, f, g, at + |Source(head)|);
    }
  }

  /** A way to write any text so that it expands to itself. */
  function Escape(s: string): string
    decreases |s|
  {
    if s == "" then ""
    else if s[0] != '$' then [s[0]] + Escape(s[1..])
    else if |s| > 1 && s[1] == '{' && Close(s, 1) < |s| then
      Source(Escaped(s[2..Close(s, 1)])) + Escape(s[Close(s, 1) + 1..])
    else "$$" + Escape(s[1..])
  }

  lemma {:induction false} EscapeAddsNoBrace(s: string)
    requires '}' !in s
    ensures '}' !in Escape(s)
    decreases |s|
  {
    if s != "" {
      assert forall c :: c in s[1..] ==> c in s;
      CloseNowhere(s, 1);
      EscapeAddsNoBrace(s[1..]);
    }
  }

  lemma EscapeStart(s: string)
    requires s != ""
    ensures Escape(s) != "" && Escape(s)[0] == s[0]
  {
  }

  lemma EscapedDollarIsLegal(s: string)
    requires s != "" && s[0] == '$' && !(|s| > 1 && s[1] == '{' && Close(s, 1) < |s|)
    ensures Legal(Dollar, Escape(s[1..]))
  {
    if |s| > 1 {
      EscapeStart(s[1..]);
      if s[1] == '{' {
        CloseNowhere(s, 1);
        EscapeAddsNoBrace(s[1..]);
      }
    }
  }

  /** The first segment of an escaped text, and the text it stands for. */
  lemma EscapeHead(s: string) returns (g: Segment, k: nat)
    requires s != ""
    ensures 0 < k <= |s| && Escape(s) == Source(g) + Escape(s[k..]) && Legal(g, Escape(s[k..]))
    ensures !g.Var? && SegmentText(g) == s[..k]
  {
    if s[0] != '$' {
      g, k := Literal(s[0]), 1;
    } else if |s| > 1 && s[1] == '{' && Close(s, 1) < |s| {
      k := Close(s, 1) + 1;
      g := Escaped(s[2..k - 1]);
      CloseSpec(s, 1);
      SliceLacks(s, 1, 2, k - 1);
      assert s[..k] == "${" + s[2..k - 1] + "}";
    } else {
      g, k := Dollar, 1;
      EscapedDollarIsLegal(s);
      assert s[..1] == "$";
    }
  }

  /** The text of a segment that looks nothing up. */
  function SegmentText(g: Segment): string {
    match g
    case Literal(c) => [c]
    case Dollar => "$"
    case Escaped(name) => "${" + name + "}"
    case Var(name) => ""
  }

  /** Segments that look nothing up and spell out s. */
  predicate Spells(segments: seq<Segment>, s: string)
    decreases segments
  {
    if segments == [] then s == ""
    else
      var text := SegmentText(segments[0]);
      !segments[0].Var? && text <= s && Spells(segments[1..], s[|text|..])
  }

  lemma {:induction false} EscapeSpells(s: string) returns (segments: seq<Segment>)
    ensures Reads(Escape(s), segments, Complete) && Spells(segments, s)
    decreases |s|
  {
    if s == "" {
      segments := [];
    } else {
      var g, k := EscapeHead(s);
      var rest := EscapeSpells(s[k..]);
      segments := [g] + rest;
      assert segments[1..] == rest;
      assert Escape(s)[|Source(g)|..] == Escape(s[k..]);
    }
  }

  lemma EvaluateHead(segments: seq<Segment>, lookup: Lookup, at: nat)
    requires segments != [] && !segments[0].Var?
    ensures Evaluate(Split(segments, Complete), lookup, at) ==
      Prepend(SegmentText(segments[0]), Evaluate(Split(segments[1..], Complete), lookup, at + |Source(segments[0])|))
  {
  }

  lemma PrefixSplit(text: string, s: string)
    requires text <= s
    ensures text + s[|text|..] == s
  {
  }

  lemma {:induction false} SpelledValue(segments: seq<Segment>, s: string, lookup: Lookup, at: nat)
    requires Spells(segments, s)
    ensures Evaluate(Split(segments, Complete), lookup, at) == Expanded(s)
    decreases segments
  {
    if segments != [] {
      EvaluateHead(segments, lookup, at);
      var text, next := SegmentText(segments[0]), at + |Source(segments[0])|;
      var left := s[|text|..];
      PrefixSplit(text, s);
      SpelledValue(segments[1..], left, lookup, next);
      assert Prepend(text, Expanded(left)) == Expanded(s);
    }
  }

  /** Round trip: for every text and every environment, the escaped text expands to the text. */
  lemma EscapeRoundTrip(s: string, lookup: Lookup)
    ensures Expand(Escape(s), lookup) == Expanded(s)
  {
    var segments := EscapeSpells(s);
    ReadingIsUnique(Escape(s), segments, Complete);
    SpelledValue(segments, s, lookup, 0);
  }
}
