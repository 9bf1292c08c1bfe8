/** The stack machine that looks for repeated object keys in a stream of JSON
    tokens (internal/config/decode.go; the token grammar is that of section 4
    and section 5 of RFC 8259). */
module DuplicateKeys {
  datatype Json = Scalar | Str(text: string) | Arr(items: seq<Json>) | Obj(members: seq<Member>)

  datatype Member = Member(key: string, value: Json)

  datatype Token = ObjOpen | ObjClose | ArrOpen | ArrClose | StrToken(text: string) | ScalarToken

  /** The token stream the decoder produces for a value. */
  function Tokens(v: Json): seq<Token>
    decreases v, 1
  {
    match v
    case Scalar => [ScalarToken]
    case Str(text) => [StrToken(text)]
    case Arr(items) => [ArrOpen] + ItemTokens(items) + [ArrClose]
    case Obj(members) => [ObjOpen] + MemberTokens(members) + [ObjClose]
  }

  function ItemTokens(items: seq<Json>): seq<Token>
    decreases items, 0
  {
    if items == [] then [] else Tokens(items[0]) + ItemTokens(items[1..])
  }

  function MemberTokens(members: seq<Member>): seq<Token>
    decreases members, 0
  {
    if members == [] then []
    else [StrToken(members[0].key)] + Tokens(members[0].value) + MemberTokens(members[1..])
  }

  /** No object at any depth repeats a key. */
  predicate Unique(v: Json)
    decreases v, 1
  {
    match v
    case Scalar => true
    case Str(_) => true
    case Arr(items) => forall i :: 0 <= i < |items| ==> Unique(items[i])
    case Obj(members) =>
      && (forall i, j :: 0 <= i < j < |members| ==> members[i].key != members[j].key)
      && (forall i :: 0 <= i < |members| ==> Unique(members[i].value))
  }

  // ---- the machine

  datatype Frame = Frame(isObject: bool, expectingKey: bool, keys: set<string>)

  datatype Verdict = Running(stack: seq<Frame>) | Duplicate(key: string) | MismatchedBrace | MismatchedBracket

  function Top(stack: seq<Frame>): Frame
    requires stack != []
  {
    stack[|stack| - 1]
  }

  predicate InObject(stack: seq<Frame>) {
    stack != [] && Top(stack).isObject
  }

  /** The enclosing frame after a complete value: an object expects a key next. */
  function AfterValue(stack: seq<Frame>): seq<Frame> {
    if InObject(stack) then stack[|stack| - 1 := Top(stack).(expectingKey := true)] else stack
  }

  function Feed(stack: seq<Frame>, t: Token): Verdict {
    match t
    case ObjOpen => Running(stack + [Frame(true, true, {})])
    case ObjClose => if InObject(stack) then Running(AfterValue(stack[..|stack| - 1])) else MismatchedBrace
    case ArrOpen => Running(stack + [Frame(false, false, {})])
    case ArrClose =>
      if stack == [] || InObject(stack) then MismatchedBracket else Running(AfterValue(stack[..|stack| - 1]))
    case StrToken(text) =>
      if InObject(stack) && Top(stack).expectingKey then
        if text in Top(stack).keys then Duplicate(text)
        else Running(stack[|stack| - 1 := Top(stack).(keys := Top(stack).keys + {text}, expectingKey := false)])
      else Running(AfterValue(stack))
    case ScalarToken => Running(AfterValue(stack))
  }

  function FeedAll(stack: seq<Frame>, ts: seq<Token>): Verdict
    decreases ts
  {
    if ts == [] then Running(stack)
    else
      var v := Feed(stack, ts[0]);
      if v.Running? then FeedAll(v.stack, ts[1..]) else v
  }

  datatype Check = Ok | EmptyConfig | TokenError | DuplicateKey(key: string) | Mismatched | Unclosed

  /** What the token loop returns; `broken` says that the decoder fails after the tokens it delivered. */
  function Verify(ts: seq<Token>, broken: bool): Check {
    match FeedAll([], ts)
    case Duplicate(key) => DuplicateKey(key)
    case MismatchedBrace => Mismatched
    case MismatchedBracket => Mismatched
    case Running(stack) => if broken then TokenError else if stack != [] then Unclosed else Ok
  }

  method CheckDuplicateKeys(blank: bool, ts: seq<Token>, broken: bool) returns (r: Check)
    ensures r == if blank then EmptyConfig else Verify(ts, broken)
  {
    if blank {
      return EmptyConfig;
    }
    var stack: seq<Frame> := [];
    assert ts[0..] == ts;
    for i := 0 to |ts|
      invariant FeedAll(stack, ts[i..]) == FeedAll([], ts)
    {
      assert ts[i..][1..] == ts[i + 1..];
      var top := |stack| - 1;
      match ts[i] {
        case ObjOpen =>
          stack := stack + [Frame(true, true, {})];
        case ObjClose =>
          if |stack| == 0 || !stack[top].isObject {
            return Mismatched;
          }
          stack := stack[..top];
          if |stack| > 0 && stack[top - 1].isObject {
            stack := stack[top - 1 := stack[top - 1].(expectingKey := true)];
          }
        case ArrOpen =>
          stack := stack + [Frame(false, false, {})];
        case ArrClose =>
          if |stack| == 0 || stack[top].isObject {
            return Mismatched;
          }
          stack := stack[..top];
          if |stack| > 0 && stack[top - 1].isObject {
            stack := stack[top - 1 := stack[top - 1].(expectingKey := true)];
          }
        case StrToken(text) =>
          if |stack| > 0 && stack[top].isObject {
            if stack[top].expectingKey {
              if text in stack[top].keys {
                return DuplicateKey(text);
              }
              stack := stack[top := stack[top].(keys := stack[top].keys + {text}, expectingKey := false)];
            } else {
              stack := stack[top := stack[top].(expectingKey := true)];
            }
          }
        case ScalarToken =>
          if |stack| > 0 && stack[top].isObject {
            stack := stack[top := stack[top].(expectingKey := true)];
          }
      }
    }
    if broken {
      return TokenError;
    }
    if |stack| != 0 {
      return Unclosed;
    }
    return Ok;
  }

  // ---- the machine against the values

  lemma {:induction false} FeedConcat(stack: seq<Frame>, a: seq<Token>, b: seq<Token>)
    ensures FeedAll(stack, a + b) ==
      if FeedAll(stack, a).Running? then FeedAll(FeedAll(stack, a).stack, b) else FeedAll(stack, a)
    decreases a
  {
    if a == [] {
      assert a + b == b;
    } else {
      var v := Feed(stack, a[0]);
      assert (a + b)[1..] == a[1..] + b;
      if v.Running? {
        FeedConcat(v.stack, a[1..], b);
      }
    }
  }

  /** A value may start here: not inside an object that expects a key. */
  predicate AcceptsValue(stack: seq<Frame>) {
    InObject(stack) ==> !Top(stack).expectingKey
  }

  /** One value restores the enclosing stack, with the parent expecting a key
      next, if it is free of repeated keys, and is reported otherwise. */
  lemma {:induction false} ValueRestoresStack(stack: seq<Frame>, v: Json)
    requires AcceptsValue(stack)
    ensures Unique(v) ==> FeedAll(stack, Tokens(v)) == Running(AfterValue(stack))
    ensures !Unique(v) ==> FeedAll(stack, Tokens(v)).Duplicate?
    decreases v, 1
  {
    match v {
      case Scalar =>
        assert FeedAll(AfterValue(stack), []) == Running(AfterValue(stack));
      case Str(text) =>
        assert FeedAll(AfterValue(stack), []) == Running(AfterValue(stack));
      case Arr(items) =>
        ItemsKeepStack(stack + [Frame(false, false, {})], items);
        ArrayRestoresStack(stack, items);
      case Obj(members) =>
        MembersCollectKeys(stack, {}, members);
        ObjectRestoresStack(stack, members);
    }
  }

  predicate AllUnique(items: seq<Json>) {
    forall i :: 0 <= i < |items| ==> Unique(items[i])
  }

  lemma ArrayRestoresStack(stack: seq<Frame>, items: seq<Json>)
    requires var inner := stack + [Frame(false, false, {})];
      if AllUnique(items) then FeedAll(inner, ItemTokens(items)) == Running(inner)
      else FeedAll(inner, ItemTokens(items)).Duplicate?
    ensures Unique(Arr(items)) ==> FeedAll(stack, Tokens(Arr(items))) == Running(AfterValue(stack))
    ensures !Unique(Arr(items)) ==> FeedAll(stack, Tokens(Arr(items))).Duplicate?
  {
    var inner := stack + [Frame(false, false, {})];
    Bracketed(stack, ArrOpen, ItemTokens(items), ArrClose, inner);
    assert inner[..|inner| - 1] == stack;
  }

  lemma ObjectRestoresStack(stack: seq<Frame>, members: seq<Member>)
    requires var body := FeedAll(stack + [Frame(true, true, {})], MemberTokens(members));
      if Fresh({}, members) then body == Running(stack + [Frame(true, true, {} + Keys(members))]) else body.Duplicate?
    ensures Unique(Obj(members)) ==> FeedAll(stack, Tokens(Obj(members))) == Running(AfterValue(stack))
    ensures !Unique(Obj(members)) ==> FeedAll(stack, Tokens(Obj(members))).Duplicate?
  {
    Bracketed(stack, ObjOpen, MemberTokens(members), ObjClose, stack + [Frame(true, true, {})]);
    var full := stack + [Frame(true, true, {} + Keys(members))];
    assert full[..|full| - 1] == stack;
  }

  /** An opening token, a body and a closing token, fed in turn. */
  lemma Bracketed(stack: seq<Frame>, open: Token, body: seq<Token>, close: Token, inner: seq<Frame>)
    requires Feed(stack, open) == Running(inner)
    ensures FeedAll(stack, [open] + body + [close]) ==
      if FeedAll(inner, body).Running? then Feed(FeedAll(inner, body).stack, close) else FeedAll(inner, body)
  {
    assert ([open] + body + [close])[1..] == body + [close];
    FeedConcat(inner, body, [close]);
    if FeedAll(inner, body).Running? {
      var v := Feed(FeedAll(inner, body).stack, close);
      assert [close][1..] == [];
      assert v.Running? ==> FeedAll(v.stack, []) == v;
    }
  }

  lemma {:induction false} ItemsKeepStack(stack: seq<Frame>, items: seq<Json>)
    requires !InObject(stack)
    ensures AllUnique(items) ==> FeedAll(stack, ItemTokens(items)) == Running(stack)
    ensures !AllUnique(items) ==> FeedAll(stack, ItemTokens(items)).Duplicate?
    decreases items, 0
  {
    if items != [] {
      ValueRestoresStack(stack, items[0]);
      FeedConcat(stack, Tokens(items[0]), ItemTokens(items[1..]));
      if Unique(items[0]) {
        ItemsKeepStack(stack, items[1..]);
        assert forall i :: 1 <= i < |items| ==> items[i] == items[1..][i - 1];
      }
    }
  }

  function Keys(members: seq<Member>): set<string> {
    set i | 0 <= i < |members| :: members[i].key
  }

  /** The members left to read repeat neither each other nor a key already seen. */
  predicate Fresh(seen: set<string>, members: seq<Member>) {
    && (forall i :: 0 <= i < |members| ==> members[i].key !in seen && Unique(members[i].value))
    && (forall i, j :: 0 <= i < j < |members| ==> members[i].key != members[j].key)
  }

  lemma FreshStep(seen: set<string>, members: seq<Member>)
    requires members != []
    ensures Fresh(seen, members) <==>
      && members[0].key !in seen && Unique(members[0].value)
      && Fresh(seen + {members[0].key}, members[1..])
    ensures seen + Keys(members) == seen + {members[0].key} + Keys(members[1..])
  {
    var rest := members[1..];
    assert forall i :: 1 <= i < |members| ==> members[i] == rest[i - 1];
    if members[0].key !in seen && Unique(members[0].value) && Fresh(seen + {members[0].key}, rest) {
      forall i, j | 0 <= i < j < |members| ensures members[i].key != members[j].key {
        assert members[j] == rest[j - 1];
      }
    }
    assert Keys(members) == {members[0].key} + Keys(rest);
  }

  lemma {:induction false} MembersCollectKeys(stack: seq<Frame>, seen: set<string>, members: seq<Member>)
    ensures Fresh(seen, members) ==>
      FeedAll(stack + [Frame(true, true, seen)], MemberTokens(members)) ==
      Running(stack + [Frame(true, true, seen + Keys(members))])
    ensures !Fresh(seen, members) ==> FeedAll(stack + [Frame(true, true, seen)], MemberTokens(members)).Duplicate?
    decreases members, 0
  {
    var here := stack + [Frame(true, true, seen)];
    if members == [] {
      assert seen + Keys(members) == seen;
    } else {
      FreshStep(seen, members);
      var m := members[0];
      var rest := Tokens(m.value) + MemberTokens(members[1..]);
      assert MemberTokens(members) == [StrToken(m.key)] + rest;
      assert ([StrToken(m.key)] + rest)[1..] == rest;
      if m.key !in seen {
        var keyed := stack + [Frame(true, false, seen + {m.key})];
        assert Feed(here, StrToken(m.key)) == Running(keyed);
        ValueRestoresStack(keyed, m.value);
        FeedConcat(keyed, Tokens(m.value), MemberTokens(members[1..]));
        assert AfterValue(keyed) == stack + [Frame(true, true, seen + {m.key})];
        MembersCollectKeys(stack, seen + {m.key}, members[1..]);
      }
    }
  }

  /** Exactness: the check passes a stream of values if and only if no object
      in any of them repeats a key, and a repeated key is what it reports.
      (That only one value follows is tested elsewhere.) */
  lemma {:induction false} AcceptsExactlyUniqueValues(vs: seq<Json>)
    ensures Verify(ItemTokens(vs), false).Ok? <==> AllUnique(vs)
    ensures Verify(ItemTokens(vs), false).Ok? || Verify(ItemTokens(vs), false).DuplicateKey?
  {
    ItemsKeepStack([], vs);
  }

  // ---- what is reported

  /** Some object in the value, at any depth, has the key twice. */
  predicate Repeats(v: Json, key: string)
    decreases v, 1
  {
    match v
    case Scalar => false
    case Str(_) => false
    case Arr(items) => exists i :: 0 <= i < |items| && Repeats(items[i], key)
    case Obj(members) =>
      || (exists i, j :: 0 <= i < j < |members| && members[i].key == key && members[j].key == key)
      || (exists i :: 0 <= i < |members| && Repeats(members[i].value, key))
  }

  /** The key a value is rejected for is one that it repeats. */
  lemma {:induction false} ReportedKeyIsRepeated(stack: seq<Frame>, v: Json, key: string)
    requires AcceptsValue(stack) && FeedAll(stack, Tokens(v)) == Duplicate(key)
    ensures Repeats(v, key)
    decreases v, 1
  {
    ValueRestoresStack(stack, v);
    match v {
      case Arr(items) =>
        var inner := stack + [Frame(false, false, {})];
        Bracketed(stack, ArrOpen, ItemTokens(items), ArrClose, inner);
        ItemsKeepStack(inner, items);
        ItemsReport(inner, items, key);
      case Obj(members) =>
        var inner := stack + [Frame(true, true, {})];
        Bracketed(stack, ObjOpen, MemberTokens(members), ObjClose, inner);
        MembersCollectKeys(stack, {}, members);
        MembersReport(stack, {}, members, key);
      case _ =>
    }
  }

  lemma {:induction false} ItemsReport(stack: seq<Frame>, items: seq<Json>, key: string)
    requires !InObject(stack) && FeedAll(stack, ItemTokens(items)) == Duplicate(key)
    ensures exists i :: 0 <= i < |items| && Repeats(items[i], key)
    decreases items, 0
  {
    ValueRestoresStack(stack, items[0]);
    FeedConcat(stack, Tokens(items[0]), ItemTokens(items[1..]));
    if Unique(items[0]) {
      ItemsReport(stack, items[1..], key);
      var i :| 0 <= i < |items[1..]| && Repeats(items[1..][i], key);
      assert Repeats(items[i + 1], key);
    } else {
      ReportedKeyIsRepeated(stack, items[0], key);
    }
  }

  /** The key is a member's own for the second time, counting those seen, or is repeated inside a member. */
  predicate RepeatsAmong(seen: set<string>, members: seq<Member>, key: string) {
    || (exists i :: 0 <= i < |members| && members[i].key == key && key in seen)
    || (exists i, j :: 0 <= i < j < |members| && members[i].key == key && members[j].key == key)
    || (exists i :: 0 <= i < |members| && Repeats(members[i].value, key))
  }

  lemma RepeatsAmongMore(seen: set<string>, members: seq<Member>, key: string)
    requires members != [] && RepeatsAmong(seen + {members[0].key}, members[1..], key)
    ensures RepeatsAmong(seen, members, key)
  {
    var rest := members[1..];
    if i :| 0 <= i < |rest| && rest[i].key == key && key in seen + {members[0].key} {
      assert members[i + 1].key == key;
    } else if i, j :| 0 <= i < j < |rest| && rest[i].key == key && rest[j].key == key {
      assert members[i + 1].key == key && members[j + 1].key == key;
    } else {
      var i :| 0 <= i < |rest| && Repeats(rest[i].value, key);
      assert Repeats(members[i + 1].value, key);
    }
  }

  lemma {:induction false} MembersReport(stack: seq<Frame>, seen: set<string>, members: seq<Member>, key: string)
    requires FeedAll(stack + [Frame(true, true, seen)], MemberTokens(members)) == Duplicate(key)
    ensures RepeatsAmong(seen, members, key)
    decreases members, 0
  {
    var here, m := stack + [Frame(true, true, seen)], members[0];
    var rest := Tokens(m.value) + MemberTokens(members[1..]);
    assert MemberTokens(members) == [StrToken(m.key)] + rest;
    assert ([StrToken(m.key)] + rest)[1..] == rest;
    if m.key !in seen {
      var keyed := stack + [Frame(true, false, seen + {m.key})];
      assert Feed(here, StrToken(m.key)) == Running(keyed);
      ValueRestoresStack(keyed, m.value);
      FeedConcat(keyed, Tokens(m.value), MemberTokens(members[1..]));
      assert AfterValue(keyed) == stack + [Frame(true, true, seen + {m.key})];
      if Unique(m.value) {
        MembersReport(stack, seen + {m.key}, members[1..], key);
        RepeatsAmongMore(seen, members, key);
      } else {
        ReportedKeyIsRepeated(keyed, m.value, key);
      }
    }
  }

  /** The whole check names a key that one of the values repeats. */
  lemma RejectionNamesARepeatedKey(vs: seq<Json>, key: string)
    requires Verify(ItemTokens(vs), false) == DuplicateKey(key)
    ensures exists i :: 0 <= i < |vs| && Repeats(vs[i], key)
  {
    ItemsReport([], vs, key);
  }

  /** A stream that breaks off inside values without repeated keys is a token error when the
      decoder fails, and unclosed or complete when it just ends; a failing decoder is never accepted. */
  lemma BrokenStreams(vs: seq<Json>, ts: seq<Token>)
    requires AllUnique(vs) && ts <= ItemTokens(vs)
    ensures Verify(ts, true).TokenError?
    ensures Verify(ts, false).Ok? || Verify(ts, false).Unclosed?
  {
    var more := ItemTokens(vs)[|ts|..];
    assert ItemTokens(vs) == ts + more;
    ItemsKeepStack([], vs);
    FeedConcat([], ts, more);
  }
}
