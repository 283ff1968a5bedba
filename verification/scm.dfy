/** Publishing commit statuses once: the in-memory log that suppresses a repeated state, for calls made
    one after another. */
module Scm {
  import opened Text
  import Gate

  datatype Status = Status(repository: string, commitSha: string, context: string, state: string)

  function Key(s: Status): string {
    s.repository + "@" + s.commitSha + "#" + s.context
  }

  /** The states accepted under a key, in order. */
  function States(accepted: seq<Status>, key: string): seq<string> {
    if accepted == [] then []
    else
      var last := accepted[|accepted| - 1];
      States(accepted[..|accepted| - 1], key) + if Key(last) == key then [last.state] else []
  }

  ghost predicate NoRepeats(states: seq<string>) {
    forall i | 0 < i < |states| :: states[i - 1] != states[i]
  }

  /** Consecutive repeats removed. */
  function Compress(states: seq<string>): seq<string> {
    if states == [] then []
    else
      var before, last := Compress(states[..|states| - 1]), states[|states| - 1];
      if before != [] && before[|before| - 1] == last then before else before + [last]
  }

  lemma CompressOneMore(states: seq<string>, last: string)
    ensures var before := Compress(states);
      Compress(states + [last]) == if before != [] && before[|before| - 1] == last then before else before + [last]
  {
    var all := states + [last];
    assert all != [] && all[..|all| - 1] == states && all[|all| - 1] == last;
  }

  /** Compressing leaves no repeats, keeps the last state, and does nothing where there are no repeats. */
  lemma {:induction false} CompressMeaning(states: seq<string>)
    ensures NoRepeats(Compress(states))
    ensures states != [] ==> Compress(states) != [] && Compress(states)[|Compress(states)| - 1] == states[|states| - 1]
    ensures NoRepeats(states) ==> Compress(states) == states
  {
    if states == [] {
    } else {
      var init, last := states[..|states| - 1], states[|states| - 1];
      assert states == init + [last];
      CompressMeaning(init);
      CompressOneMore(init, last);
      hide Compress;
      assert NoRepeats(states) ==> NoRepeats(init) && (init == [] || init[|init| - 1] != last) by {
        assert init != [] ==> states[|init| - 1] == init[|init| - 1] && states[|init|] == last;
        assert forall i | 0 <= i < |init| :: init[i] == states[i];
      }
    }
  }

  lemma StatesOneMore(accepted: seq<Status>, s: Status, key: string)
    ensures States(accepted + [s], key) == States(accepted, key) + if Key(s) == key then [s.state] else []
  {
    var all := accepted + [s];
    assert all != [] && all[..|all| - 1] == accepted && all[|all| - 1] == s;
  }

  /** `seen` holds the last of the states accepted under a key, none of which repeats the one before it. */
  ghost predicate Remembers(seen: map<string, string>, key: string, states: seq<string>) {
    && NoRepeats(states)
    && (key in seen <==> states != [])
    && (states != [] ==> seen[key] == states[|states| - 1])
  }

  lemma RemembersOneMore(seen: map<string, string>, key: string, states: seq<string>, state: string)
    requires Remembers(seen, key, states) && !(key in seen && seen[key] == state)
    ensures Remembers(seen[key := state], key, states + [state])
  {
    var all := states + [state];
    forall i | 0 < i < |all| ensures all[i - 1] != all[i] {
      assert all[i - 1] == states[i - 1];
    }
  }

  class IdempotentPublisher {
    var seen: map<string, string>
    /** What the inner publisher has accepted. */
    ghost var accepted: seq<Status>

    constructor ()
      ensures seen == map[] && accepted == [] && Valid()
    {
      seen, accepted := map[], [];
    }

    /** `seen` holds the last accepted state of every key, and no key was accepted twice in a row in one state. */
    ghost predicate Valid()
      reads this
    {
      forall key :: Remembers(seen, key, States(accepted, key))
    }

    /** `works` is whether the inner publisher accepts this call. */
    method Publish(s: Status, works: bool) returns (delivered: bool, failed: bool)
      requires Valid()
      modifies this
      ensures Valid()
      ensures accepted == if delivered then old(accepted) + [s] else old(accepted)
      ensures delivered <==> works && !(Key(s) in old(seen) && old(seen)[Key(s)] == s.state)
      ensures failed <==> !works && !(Key(s) in old(seen) && old(seen)[Key(s)] == s.state)
      ensures delivered ==> seen == old(seen)[Key(s) := s.state]
      ensures !delivered ==> seen == old(seen)
    {
      var key := Key(s);
      if key in seen && seen[key] == s.state {
        return false, false;
      }
      if !works {
        return false, true;
      }
      forall k ensures Remembers(seen[key := s.state], k, States(accepted + [s], k)) {
        StatesOneMore(accepted, s, k);
        assert Remembers(seen, k, States(accepted, k));
        if k == key {
          RemembersOneMore(seen, key, States(accepted, key), s.state);
        }
      }
      accepted := accepted + [s];
      seen := seen[key := s.state];
      return true, false;
    }
  }

  /** The log after a sequence of calls, of which the i-th reaches a working publisher or not. */
  function AcceptedLog(calls: seq<Status>, works: nat -> bool): seq<Status> {
    if calls == [] then []
    else
      var n := |calls| - 1;
      var before := AcceptedLog(calls[..n], works);
      var states := States(before, Key(calls[n]));
      if works(n) && !(states != [] && states[|states| - 1] == calls[n].state) then before + [calls[n]] else before
  }

  /** The function describes the class: one more call, one more step. */
  method Call(p: IdempotentPublisher, calls: seq<Status>, works: nat -> bool)
    requires calls != [] && p.Valid() && p.accepted == AcceptedLog(calls[..|calls| - 1], works)
    modifies p
    ensures p.Valid() && p.accepted == AcceptedLog(calls, works)
  {
    var n := |calls| - 1;
    assert p.Valid() && NoRepeats(States(p.accepted, Key(calls[n])));
    var _, _ := p.Publish(calls[n], works(n));
  }

  /** Any calls on a new publisher, whatever fails, leave the log the function describes. */
  method PublishAll(calls: seq<Status>, works: nat -> bool) returns (p: IdempotentPublisher)
    ensures fresh(p) && p.Valid() && p.accepted == AcceptedLog(calls, works)
  {
    p := new IdempotentPublisher();
    for i := 0 to |calls|
      invariant fresh(p) && p.Valid() && p.accepted == AcceptedLog(calls[..i], works)
    {
      assert calls[..i + 1][..i] == calls[..i];
      Call(p, calls[..i + 1], works);
    }
    assert calls[..|calls|] == calls;
  }

  /** For every sequence of calls and failures no key is ever accepted in the same state twice in a row. */
  lemma {:induction false} AcceptedHasNoRepeats(calls: seq<Status>, works: nat -> bool, key: string)
    ensures NoRepeats(States(AcceptedLog(calls, works), key))
  {
    if calls == [] {
    } else {
      AcceptedHasNoRepeats(calls[..|calls| - 1], works, key);
      StatesOneMore(AcceptedLog(calls[..|calls| - 1], works), calls[|calls| - 1], key);
    }
  }

  ghost predicate EndsIn(states: seq<string>, state: string) {
    states != [] && states[|states| - 1] == state
  }

  /** A working call is accepted unless its key ended in that state. */
  lemma AcceptedOneMore(calls: seq<Status>, works: nat -> bool, key: string)
    requires calls != [] && works(|calls| - 1)
    ensures var last, before := calls[|calls| - 1], States(AcceptedLog(calls[..|calls| - 1], works), key);
      States(AcceptedLog(calls, works), key) ==
      if Key(last) == key && !EndsIn(before, last.state) then before + [last.state] else before
  {
    var last, before := calls[|calls| - 1], AcceptedLog(calls[..|calls| - 1], works);
    StatesOneMore(before, last, key);
    assert States(before, key) + [] == States(before, key);
  }

  /** Without failures exactly the input is accepted, with consecutive repeats per key removed. */
  lemma {:induction false} AcceptedIsCompressed(calls: seq<Status>, works: nat -> bool, key: string)
    requires forall i :: works(i)
    ensures States(AcceptedLog(calls, works), key) == Compress(States(calls, key))
  {
    if calls == [] {
      return;
    }
    AcceptedOneMore(calls, works, key);
    var init, last := calls[..|calls| - 1], calls[|calls| - 1];
    CompressOneMore(States(init, key), last.state);
    assert States(calls, key) == if Key(last) == key then States(init, key) + [last.state] else States(init, key);
    hide AcceptedLog, States, Compress;
    AcceptedIsCompressed(init, works, key);
  }

  // ----- Keys and coordinates

  predicate Free(s: string) {
    '@' !in s && '#' !in s
  }

  predicate SamePlace(s: Status, t: Status) {
    s.repository == t.repository && s.commitSha == t.commitSha && s.context == t.context
  }

  /** No separator where it could be read in two ways. */
  predicate Clear(s: Status) {
    '@' !in s.repository && Free(s.commitSha) && '#' !in s.context
  }

  /** Where the separators of the key of `place` are. */
  function At(place: Status): nat {
    |place.repository|
  }

  function Hash(place: Status): nat {
    |place.repository| + 1 + |place.commitSha|
  }

  /** Where the pieces of a key are. */
  lemma KeyParts(s: Status)
    ensures var key := Key(s);
      && At(s) < Hash(s) < |key| && key[At(s)] == '@' && key[Hash(s)] == '#'
      && (forall k | 0 <= k < At(s) :: key[k] in s.repository)
      && (forall k | At(s) < k < Hash(s) :: key[k] in s.commitSha)
      && (forall k | Hash(s) < k < |key| :: key[k] in s.context)
  {
    var a := Joined(s.repository, '@', s.commitSha);
    assert Key(s) == Joined(a, '#', s.context);
    JoinedParts(s.repository, '@', s.commitSha);
    JoinedParts(a, '#', s.context);
    hide Joined;
    assert forall k | 0 <= k < |a| :: Key(s)[k] == Key(s)[..|a|][k] == a[k];
  }

  lemma ClearKeyIsUnique(s: Status, t: Status)
    requires Clear(s) && Key(t) == Key(s)
    ensures SamePlace(s, t)
  {
    assert At(s) == At(t) && Hash(s) == Hash(t) by {
      KeyParts(s);
      KeyParts(t);
      hide Key;
    }
    var a1, a2 := Joined(s.repository, '@', s.commitSha), Joined(t.repository, '@', t.commitSha);
    assert Key(s) == Joined(a1, '#', s.context) && Key(t) == Joined(a2, '#', t.context);
    JoinedSame(a1, s.context, a2, t.context, '#');
    JoinedSame(s.repository, s.commitSha, t.repository, t.commitSha, '@');
  }

  /** Cuts a string at an occurrence of a character. */
  lemma Cut(s: string, c: char) returns (a: string, b: string)
    requires c in s
    ensures s == a + [c] + b && |s| == |a| + 1 + |b|
  {
    var k :| 0 <= k < |s| && s[k] == c;
    a, b := s[..k], s[k + 1..];
  }

  /** A second place with the key of an unclear one: the separators are read elsewhere. */
  lemma UnclearKeyIsShared(s: Status) returns (t: Status)
    requires !Clear(s)
    ensures Key(t) == Key(s) && !SamePlace(s, t) && t.state != s.state
  {
    var other := s.state + "x";
    if '@' in s.repository {
      var a, b := Cut(s.repository, '@');
      t := Status(a, b + "@" + s.commitSha, s.context, other);
      assert |t.repository| < |s.repository|;
    } else if '@' in s.commitSha {
      var a, b := Cut(s.commitSha, '@');
      t := Status(s.repository + "@" + a, b, s.context, other);
      assert |t.repository| > |s.repository|;
    } else if '#' in s.commitSha {
      var a, b := Cut(s.commitSha, '#');
      t := Status(s.repository, a, b + "#" + s.context, other);
      assert |t.commitSha| < |s.commitSha|;
    } else {
      var a, b := Cut(s.context, '#');
      t := Status(s.repository, s.commitSha + "#" + a, b, other);
      assert |t.commitSha| > |s.commitSha|;
    }
    assert t.state != s.state by {
      assert |other| == |s.state| + 1;
    }
  }

  /** Exactly when a key stands for one repository, commit and context whatever else is published. */
  lemma KeyIsUniqueExactlyWhen(s: Status)
    ensures (forall t :: Key(t) == Key(s) ==> SamePlace(s, t)) <==> Clear(s)
  {
    if Clear(s) {
      forall t | Key(t) == Key(s) ensures SamePlace(s, t) {
        ClearKeyIsUnique(s, t);
      }
    } else {
      var t := UnclearKeyIsShared(s);
    }
  }

  /** Two places can share a key, and a state change of one hides that of the other. */
  lemma KeysCanCollide()
    ensures Key(Status("o/r@a", "b", "c", "x")) == Key(Status("o/r", "a@b", "c", "x"))
  {
    assert "o/r@a" + "@" + "b" == "o/r" + "@" + "a@b";
  }

  // ----- What that means for a place

  /** The states accepted for the repository, commit and context of `place`, in order. */
  function StatesAt(accepted: seq<Status>, place: Status): seq<string> {
    if accepted == [] then []
    else
      var last := accepted[|accepted| - 1];
      StatesAt(accepted[..|accepted| - 1], place) + if SamePlace(last, place) then [last.state] else []
  }

  lemma {:induction false} StatesAtClearPlace(accepted: seq<Status>, place: Status)
    requires Clear(place)
    ensures StatesAt(accepted, place) == States(accepted, Key(place))
  {
    if accepted == [] {
    } else {
      StatesAtClearPlace(accepted[..|accepted| - 1], place);
      var last := accepted[|accepted| - 1];
      assert SamePlace(last, place) ==> Key(last) == Key(place);
      if Key(last) == Key(place) {
        ClearKeyIsUnique(place, last);
      }
    }
  }

  lemma StatesAtOneMore(accepted: seq<Status>, s: Status, place: Status)
    ensures StatesAt(accepted + [s], place) == StatesAt(accepted, place) + if SamePlace(s, place) then [s.state] else []
  {
    var all := accepted + [s];
    assert all != [] && all[..|all| - 1] == accepted && all[|all| - 1] == s;
  }

  lemma AcceptedAppend(calls: seq<Status>, works: nat -> bool, s: Status)
    requires works(|calls|)
    ensures var before := AcceptedLog(calls, works);
      AcceptedLog(calls + [s], works) == if EndsIn(States(before, Key(s)), s.state) then before else before + [s]
  {
    var all := calls + [s];
    assert all != [] && all[..|all| - 1] == calls && all[|all| - 1] == s;
  }

  /** One more call that is accepted, when all before it were. */
  lemma PostOne(calls: seq<Status>, works: nat -> bool, s: Status, place: Status)
    requires works(|calls|) && AcceptedLog(calls, works) == calls && !EndsIn(States(calls, Key(s)), s.state)
    ensures AcceptedLog(calls + [s], works) == calls + [s]
    ensures EndsIn(States(calls + [s], Key(s)), s.state)
    ensures StatesAt(calls + [s], place) == StatesAt(calls, place) + if SamePlace(s, place) then [s.state] else []
  {
    AcceptedAppend(calls, works, s);
    StatesOneMore(calls, s, Key(s));
    StatesAtOneMore(calls, s, place);
  }

  /** Three calls at an unclear place, the second for another place with its key, and the first state is posted
      twice. */
  lemma UnclearPlaceRepeats(place: Status) returns (calls: seq<Status>, works: nat -> bool)
    requires !Clear(place)
    ensures StatesAt(AcceptedLog(calls, works), place) == [place.state, place.state]
  {
    var t := UnclearKeyIsShared(place);
    works := _ => true;
    assert AcceptedLog([], works) == [] && States([], Key(place)) == [] && StatesAt([], place) == [];
    assert SamePlace(place, place);
    hide Key, SamePlace, AcceptedLog, States, StatesAt;
    PostOne([], works, place, place);
    var one := [] + [place];
    PostOne(one, works, t, place);
    var two := one + [t];
    PostOne(two, works, place, place);
    calls := two + [place];
  }

  /** Exactly at clear places no state is ever posted twice in a row, whatever calls are made and fail. */
  lemma PlaceHasNoRepeatsExactlyWhen(place: Status)
    ensures (forall calls: seq<Status>, works: nat -> bool ::
               NoRepeats(StatesAt(AcceptedLog(calls, works), place))) <==> Clear(place)
  {
    if Clear(place) {
      forall calls: seq<Status>, works: nat -> bool ensures NoRepeats(StatesAt(AcceptedLog(calls, works), place)) {
        AcceptedHasNoRepeats(calls, works, Key(place));
        StatesAtClearPlace(AcceptedLog(calls, works), place);
      }
    } else {
      var calls, works := UnclearPlaceRepeats(place);
      var states := StatesAt(AcceptedLog(calls, works), place);
      assert states[1 - 1] == states[1];
    }
  }

  // ----- Statuses of release evidence

  const CONTEXT := "membrane-ai/release-assurance"

  function MapSCMStatus(e: Gate.Evidence, mode: Gate.Mode): Status {
    Status(e.repository, e.commitSha, CONTEXT, Gate.CommitState(e, mode))
  }

  /** For valid evidence the publisher keeps its promise exactly when the repository's name holds no @. */
  lemma EvidencePlaceIsClear(e: Gate.Evidence, mode: Gate.Mode)
    requires Gate.Valid(e)
    ensures var s := MapSCMStatus(e, mode);
      && s.repository == e.repository && s.commitSha == e.commitSha && s.context == "membrane-ai/release-assurance"
      && (Clear(s) <==> '@' !in e.repository)
  {
    assert forall k | 0 <= k < |e.commitSha| :: Gate.IsHex(e.commitSha[k]);
    assert '#' !in CONTEXT by {
      assert forall c | c in CONTEXT :: c != '#';
    }
    hide Gate.CommitState;
  }
}
