/** Public tool names: `<serverID>__<original>` when that is a valid name,
    otherwise a hashed alias; two-pass allocation against the names already
    claimed (internal/catalog/naming.go).

    A Go string is a sequence of bytes; here a byte is a char.  SHA-256 is an
    arbitrary function into 24 lower-case hexadecimal digits. */
module Naming {
  predicate LowerLetter(c: char) { 'a' <= c <= 'z' }
  predicate Digit(c: char) { '0' <= c <= '9' }

  predicate AllowedChar(c: char) {
    LowerLetter(c) || 'A' <= c <= 'Z' || Digit(c) || c == '_' || c == '-'
  }

  predicate ValidPublicName(name: string) {
    0 < |name| <= 64 && forall i :: 0 <= i < |name| ==> AllowedChar(name[i])
  }

  /** ^[a-z][a-z0-9_-]{0,31}$ */
  predicate ValidServerID(id: string) {
    && 0 < |id| <= 32
    && LowerLetter(id[0])
    && forall i :: 0 <= i < |id| ==> LowerLetter(id[i]) || Digit(id[i]) || id[i] == '_' || id[i] == '-'
  }

  predicate HexDigits(s: string) {
    |s| == 24 && forall i :: 0 <= i < |s| ==> Digit(s[i]) || 'a' <= s[i] <= 'f'
  }

  type Hex24 = s: string | HexDigits(s) witness "000000000000000000000000"

  type Hash = string -> Hex24

  function HashedAlias(hash: Hash, id: string, original: string): string {
    id + "__h" + hash(id + "\0" + original)
  }

  function DirectName(id: string, original: string): string {
    id + "__" + original
  }

  predicate DirectValid(id: string, original: string) {
    original != "" && ValidPublicName(DirectName(id, original))
  }

  function CandidateName(hash: Hash, id: string, original: string): string {
    if original == "" then ""
    else if DirectValid(id, original) then DirectName(id, original)
    else HashedAlias(hash, id, original)
  }

  datatype NameError = NoError | EmptyName | Collision

  datatype Candidate = Candidate(
    index: nat, original: string, publicName: string, isAlias: bool, directValid: bool, err: NameError)

  /** j is served before i: direct names first, then list order. */
  predicate Precedes(id: string, originals: seq<string>, j: nat, i: nat)
    requires i < |originals| && j < |originals|
  {
    if DirectValid(id, originals[j]) == DirectValid(id, originals[i]) then j < i else DirectValid(id, originals[j])
  }

  /** Somebody served earlier wants the same public name. */
  predicate Preempted(hash: Hash, id: string, originals: seq<string>, i: nat)
    requires i < |originals|
  {
    exists j: nat :: j < |originals| && originals[j] != "" && Precedes(id, originals, j, i)
      && CandidateName(hash, id, originals[j]) == CandidateName(hash, id, originals[i])
  }

  /** The outcome for one tool, stated without the passes. */
  function Outcome(hash: Hash, id: string, originals: seq<string>, existing: set<string>, i: nat): Candidate
    requires i < |originals|
  {
    var original := originals[i];
    var direct := DirectValid(id, original);
    var name := CandidateName(hash, id, original);
    Candidate(i, original, name, original != "" && !direct, direct,
              if original == "" then EmptyName
              else if name in existing || Preempted(hash, id, originals, i) then Collision
              else NoError)
  }

  function Outcomes(hash: Hash, id: string, originals: seq<string>, existing: set<string>): (r: seq<Candidate>)
    ensures |r| == |originals|
    ensures forall i :: 0 <= i < |r| ==> r[i] == Outcome(hash, id, originals, existing, i)
  {
    seq(|originals|, i requires 0 <= i < |originals| => Outcome(hash, id, originals, existing, i))
  }

  /** The candidate before any name is claimed. */
  function Initial(hash: Hash, id: string, originals: seq<string>, i: nat): Candidate
    requires i < |originals|
  {
    var original := originals[i];
    var direct := DirectValid(id, original);
    Candidate(i, original, CandidateName(hash, id, original), original != "" && !direct, direct,
              if original == "" then EmptyName else NoError)
  }

  /** c takes part in the pass over direct names, or in the one over aliases. */
  predicate Eligible(c: Candidate, direct: bool) {
    c.err.NoError? && c.directValid == direct
  }

  /** Names claimed when a pass that began with `start` has seen n candidates. */
  function Claimed(cs: seq<Candidate>, direct: bool, start: set<string>, n: nat): set<string>
    requires n <= |cs|
  {
    if n == 0 then start
    else
      var rest := Claimed(cs, direct, start, n - 1);
      if Eligible(cs[n - 1], direct) then rest + {cs[n - 1].publicName} else rest
  }

  lemma {:induction false} ClaimedMembers(cs: seq<Candidate>, direct: bool, start: set<string>, n: nat, name: string)
    requires n <= |cs|
    ensures name in Claimed(cs, direct, start, n) <==>
      name in start || exists j :: 0 <= j < n && Eligible(cs[j], direct) && cs[j].publicName == name
  {
    if n > 0 {
      ClaimedMembers(cs, direct, start, n - 1, name);
    }
  }

  function AfterPass(c: Candidate, direct: bool, taken: set<string>): Candidate {
    if Eligible(c, direct) && c.publicName in taken then c.(err := Collision) else c
  }

  /** One allocation pass: a name already claimed marks the candidate, a free
      one is claimed.  The index the Go map stores with a name is never read. */
  method ClaimPass(cs: seq<Candidate>, before: set<string>, direct: bool)
    returns (results: seq<Candidate>, claimed: set<string>)
    ensures claimed == Claimed(cs, direct, before, |cs|)
    ensures |results| == |cs|
    ensures forall k :: 0 <= k < |cs| ==> results[k] == AfterPass(cs[k], direct, Claimed(cs, direct, before, k))
  {
    results, claimed := cs, before;
    for i := 0 to |cs|
      invariant claimed == Claimed(cs, direct, before, i)
      invariant |results| == |cs| && forall k :: i <= k < |cs| ==> results[k] == cs[k]
      invariant forall k :: 0 <= k < i ==> results[k] == AfterPass(cs[k], direct, Claimed(cs, direct, before, k))
    {
      var c := results[i];
      if Eligible(c, direct) {
        if c.publicName in claimed {
          results := results[i := c.(err := Collision)];
        }
        claimed := claimed + {c.publicName};
      }
    }
  }

  method InitialCandidates(hash: Hash, id: string, originals: seq<string>) returns (results: seq<Candidate>)
    ensures IsInitial(hash, id, originals, results)
  {
    results := [];
    for i := 0 to |originals|
      invariant |results| == i && forall k :: 0 <= k < i ==> results[k] == Initial(hash, id, originals, k)
    {
      var original := originals[i];
      if original == "" {
        results := results + [Candidate(i, "", "", false, false, EmptyName)];
      } else if DirectValid(id, original) {
        results := results + [Candidate(i, original, DirectName(id, original), false, true, NoError)];
      } else {
        results := results + [Candidate(i, original, HashedAlias(hash, id, original), true, false, NoError)];
      }
    }
  }

  predicate IsInitial(hash: Hash, id: string, originals: seq<string>, cs: seq<Candidate>) {
    |cs| == |originals| && forall k :: 0 <= k < |cs| ==> cs[k] == Initial(hash, id, originals, k)
  }

  /** The first pass leaves the aliases alone, so the second sees the same eligible aliases. */
  lemma {:induction false} SecondPassNames(cs: seq<Candidate>, ds: seq<Candidate>, start: set<string>, n: nat)
    requires |ds| == |cs| && n <= |cs|
    requires forall k :: 0 <= k < |cs| ==> ds[k] == cs[k] || (cs[k].directValid && ds[k] == cs[k].(err := Collision))
    ensures Claimed(ds, false, start, n) == Claimed(cs, false, start, n)
  {
    if n > 0 {
      SecondPassNames(cs, ds, start, n - 1);
    }
  }

  lemma PreemptedByPasses(hash: Hash, id: string, originals: seq<string>, existing: set<string>, cs: seq<Candidate>, i: nat)
    requires IsInitial(hash, id, originals, cs) && i < |cs| && originals[i] != ""
    ensures cs[i].publicName in existing || Preempted(hash, id, originals, i) <==>
      cs[i].publicName in if cs[i].directValid then Claimed(cs, true, existing, i)
                          else Claimed(cs, false, Claimed(cs, true, existing, |cs|), i)
  {
    var name := cs[i].publicName;
    ClaimedMembers(cs, true, existing, if cs[i].directValid then i else |cs|, name);
    ClaimedMembers(cs, false, Claimed(cs, true, existing, |cs|), i, name);
    if Preempted(hash, id, originals, i) {
      var j: nat :| j < |originals| && originals[j] != "" && Precedes(id, originals, j, i)
        && CandidateName(hash, id, originals[j]) == name;
      assert Eligible(cs[j], cs[j].directValid) && cs[j].publicName == name;
    }
    if j :| 0 <= j < |cs| && Eligible(cs[j], true) && cs[j].publicName == name && (cs[i].directValid ==> j < i) {
      assert Precedes(id, originals, j, i);
    }
    if j :| 0 <= j < i && Eligible(cs[j], false) && cs[j].publicName == name && !cs[i].directValid {
      assert Precedes(id, originals, j, i);
    }
  }

  /** Direct names first, then aliases, each against everything claimed so far. */
  method ResolveNamesWithPriority(hash: Hash, id: string, originals: seq<string>, existing: set<string>)
    returns (out: seq<Candidate>)
    ensures out == Outcomes(hash, id, originals, existing)
  {
    var cs := InitialCandidates(hash, id, originals);
    var ds, claimed := ClaimPass(cs, existing, true);
    out, claimed := ClaimPass(ds, claimed, false);
    forall i | 0 <= i < |originals| ensures out[i] == Outcome(hash, id, originals, existing, i) {
      SecondPassNames(cs, ds, Claimed(cs, true, existing, |cs|), i);
      if originals[i] != "" {
        PreemptedByPasses(hash, id, originals, existing, cs, i);
      }
    }
  }

  lemma CandidateNameIsValid(hash: Hash, id: string, original: string)
    requires ValidServerID(id) && original != ""
    ensures ValidPublicName(CandidateName(hash, id, original))
  {
    if !DirectValid(id, original) {
      var hex: string := hash(id + "\0" + original);
      var name := id + "__h" + hex;
      assert HexDigits(hex);
      forall i | 0 <= i < |name| ensures AllowedChar(name[i]) {
        if i >= |id| + 3 {
          assert name[i] == hex[i - |id| - 3];
        }
      }
    }
  }

  /** The names given out are valid, outside the external claims and pairwise distinct. */
  lemma SuccessesAreSound(hash: Hash, id: string, originals: seq<string>, existing: set<string>, i: nat, j: nat)
    requires i < |originals| && j < |originals| && i != j
    requires Outcome(hash, id, originals, existing, i).err.NoError?
    ensures ValidServerID(id) ==> ValidPublicName(Outcome(hash, id, originals, existing, i).publicName)
    ensures Outcome(hash, id, originals, existing, i).publicName !in existing
    ensures Outcome(hash, id, originals, existing, j).err.NoError? ==>
      Outcome(hash, id, originals, existing, i).publicName != Outcome(hash, id, originals, existing, j).publicName
  {
    if ValidServerID(id) {
      CandidateNameIsValid(hash, id, originals[i]);
    }
    if Precedes(id, originals, i, j) {
      assert !Preempted(hash, id, originals, j) || !Outcome(hash, id, originals, existing, j).err.NoError?;
    } else {
      assert Precedes(id, originals, j, i);
    }
  }

  /** A tool whose direct name is valid fails only on an external claim or on
      an earlier tool with the same original name: never because of an alias. */
  lemma DirectFailsOnlyOnClaims(hash: Hash, id: string, originals: seq<string>, existing: set<string>, i: nat)
    requires i < |originals| && DirectValid(id, originals[i])
    ensures Outcome(hash, id, originals, existing, i).err.Collision? <==>
      DirectName(id, originals[i]) in existing || originals[i] in originals[..i]
  {
    if Preempted(hash, id, originals, i) {
      var j: nat :| j < |originals| && originals[j] != "" && Precedes(id, originals, j, i)
        && CandidateName(hash, id, originals[j]) == CandidateName(hash, id, originals[i]);
      assert DirectName(id, originals[j])[|id| + 2..] == originals[j];
      assert DirectName(id, originals[i])[|id| + 2..] == originals[i];
      assert originals[..i][j] == originals[i];
    }
    if originals[i] in originals[..i] {
      var j: nat :| j < i && originals[..i][j] == originals[i];
      assert Precedes(id, originals, j, i);
    }
  }

  /** When the direct name is used, in characters: the server ID is a valid one. */
  lemma DirectValidExactly(id: string, original: string)
    requires ValidServerID(id)
    ensures DirectValid(id, original) <==>
      original != "" && |id| + 2 + |original| <= 64 && forall i :: 0 <= i < |original| ==> AllowedChar(original[i])
  {
    var name := DirectName(id, original);
    assert forall i :: 0 <= i < |original| ==> name[|id| + 2 + i] == original[i];
    assert forall i :: 0 <= i < |id| ==> name[i] == id[i];
    if original != "" && |name| <= 64 && forall i :: 0 <= i < |original| ==> AllowedChar(original[i]) {
      forall k | 0 <= k < |name| ensures AllowedChar(name[k]) {
        if k >= |id| + 2 {
          assert name[k] == original[k - |id| - 2];
        }
      }
    }
  }

  /** A tool that needs an alias fails only on an external claim, on a tool whose direct name is that
      alias, or on an earlier tool with the same alias; the flags tell which kind of name it has. */
  lemma AliasFailsOnlyOnClaims(hash: Hash, id: string, originals: seq<string>, existing: set<string>, i: nat)
    requires i < |originals| && originals[i] != "" && !DirectValid(id, originals[i])
    ensures var c := Outcome(hash, id, originals, existing, i);
      var alias := HashedAlias(hash, id, originals[i]);
      && c.publicName == alias && c.isAlias && !c.directValid && c.index == i && c.original == originals[i]
      && (c.err.Collision? <==>
            || alias in existing
            || (exists j :: 0 <= j < |originals| && DirectValid(id, originals[j]) && DirectName(id, originals[j]) == alias)
            || (exists j :: 0 <= j < i && originals[j] != "" && !DirectValid(id, originals[j])
                            && HashedAlias(hash, id, originals[j]) == alias))
  {
    var alias := HashedAlias(hash, id, originals[i]);
    if Preempted(hash, id, originals, i) {
      var j: nat :| j < |originals| && originals[j] != "" && Precedes(id, originals, j, i)
        && CandidateName(hash, id, originals[j]) == CandidateName(hash, id, originals[i]);
      assert DirectValid(id, originals[j]) || j < i;
    }
    if j :| 0 <= j < |originals| && DirectValid(id, originals[j]) && DirectName(id, originals[j]) == alias {
      assert Precedes(id, originals, j, i) && CandidateName(hash, id, originals[j]) == alias;
    }
    if j :| 0 <= j < i && originals[j] != "" && !DirectValid(id, originals[j]) && HashedAlias(hash, id, originals[j]) == alias {
      assert Precedes(id, originals, j, i) && CandidateName(hash, id, originals[j]) == alias;
    }
  }

  predicate Distinct(s: seq<string>) {
    forall i, j :: 0 <= i < j < |s| ==> s[i] != s[j]
  }

  /** For distinct originals the outcome of a direct name does not depend on the rest of the list or its order. */
  lemma DirectOutcomeIgnoresOrder(hash: Hash, id: string, a: seq<string>, b: seq<string>, existing: set<string>, i: nat, j: nat)
    requires Distinct(a) && Distinct(b) && i < |a| && j < |b| && a[i] == b[j] && DirectValid(id, a[i])
    ensures Outcome(hash, id, a, existing, i).err == Outcome(hash, id, b, existing, j).err
    ensures Outcome(hash, id, a, existing, i).publicName == Outcome(hash, id, b, existing, j).publicName
  {
    DirectFailsOnlyOnClaims(hash, id, a, existing, i);
    DirectFailsOnlyOnClaims(hash, id, b, existing, j);
  }

  lemma SuffixSplits(a: string, b: string, c: string, d: string)
    requires a + c == b + d && |c| == |d|
    ensures a == b && c == d
  {
    assert |a| == |b|;
    assert a == (a + c)[..|a|] && b == (b + d)[..|b|];
    assert c == (a + c)[|a|..] && d == (b + d)[|b|..];
  }

  /** Aliases coincide exactly when server and hash do: with a hash that keeps the names of a
      server apart, different tools have different aliases. */
  lemma AliasesCoincideExactly(hash: Hash, id: string, original: string, id': string, original': string)
    ensures HashedAlias(hash, id, original) == HashedAlias(hash, id', original') <==>
      id == id' && hash(id + "\0" + original) == hash(id' + "\0" + original')
  {
    var h, h' := "__h" + hash(id + "\0" + original), "__h" + hash(id' + "\0" + original');
    assert HashedAlias(hash, id, original) == id + h && HashedAlias(hash, id', original') == id' + h';
    if HashedAlias(hash, id, original) == HashedAlias(hash, id', original') {
      SuffixSplits(id, id', h, h');
      assert h[3..] == hash(id + "\0" + original) && h'[3..] == hash(id' + "\0" + original');
    }
  }

  /** The first NUL of the hashed text ends the server ID. */
  lemma NulEndsServerID(id: string, original: string)
    requires ValidServerID(id)
    ensures var t := id + "\0" + original;
      && (forall i :: 0 <= i < |id| ==> t[i] != '\0') && t[|id|] == '\0'
      && t[..|id|] == id && t[|id| + 1..] == original
  {
    var t := id + "\0" + original;
    forall i | 0 <= i < |id| ensures t[i] != '\0' {
      assert t[i] == id[i];
    }
  }

  /** What is hashed determines the tool: server and original name can be read off it. */
  lemma HashedTextIsUnambiguous(id: string, original: string, id': string, original': string)
    requires ValidServerID(id) && ValidServerID(id')
    ensures id + "\0" + original == id' + "\0" + original' <==> id == id' && original == original'
  {
    NulEndsServerID(id, original);
    NulEndsServerID(id', original');
  }

  /** Direct names of different servers can coincide, so disjointness rests on the claims alone. */
  lemma DirectNamesCollideAcrossServers()
    ensures ValidServerID("a") && ValidServerID("a__b")
    ensures DirectName("a", "b__c") == DirectName("a__b", "c") && DirectValid("a", "b__c")
  {
    assert DirectName("a", "b__c") == "a__b__c" == DirectName("a__b", "c");
  }
}
