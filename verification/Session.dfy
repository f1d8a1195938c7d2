/**
 A resident session: its token history, the pinned prefix and the diff prefill against the engine's KV cache.

 Source: src/geistd.c. The engine is a token sequence with a pinned prefix; whether it does its work in a
 call is chosen by the environment, except that its reset succeeds where the program ignores the result.
 */
module Session {

  const CTX_CAP := 4096

  /** The history and the pin of the session; the engine's cache and the prefix it keeps. */
  datatype State = State(hist: seq<int>, pinned: nat, cache: seq<int>, kept: nat)

  const INIT := State([], 0, [], 0)

  datatype Reply = Refused | Differs | Prefilled(count: nat, reused: nat, n: nat) | Stepped(n: nat) | PinnedTo(n: nat) | Done

  datatype Event =
    | Prefill(ids: seq<int>, vocab: nat, resets: bool, prefills: bool)
    | Step(token: int, decodes: bool)
    | Pin(n: nat, works: bool)
    | Unpin(works: bool)
    | Reset

  /** The engine's reset truncates to the kept prefix. */
  function ResetCache(s: State): seq<int> {
    if s.kept <= |s.cache| then s.cache[..s.kept] else s.cache
  }

  function ResetBoth(s: State): State {
    s.(hist := if s.pinned <= |s.hist| then s.hist[..s.pinned] else s.hist, cache := ResetCache(s))
  }

  /** The scan for the first difference. */
  function Common(a: seq<int>, b: seq<int>, from: nat): (n: nat)
    requires from <= |a| && from <= |b|
    ensures from <= n <= |a| && n <= |b|
    ensures a[from..n] == b[from..n] && (n < |a| && n < |b| ==> a[n] != b[n])
    decreases |a| - from
  {
    if from < |a| && from < |b| && a[from] == b[from] then Common(a, b, from + 1) else from
  }

  predicate InVocabulary(ids: seq<int>, vocab: nat) {
    forall i :: 0 <= i < |ids| ==> 0 <= ids[i] < vocab
  }

  /** hist_push; nobody looks at whether it refused. */
  function Push(hist: seq<int>, ids: seq<int>): seq<int> {
    if |hist| + |ids| > CTX_CAP then hist else hist + ids
  }

  /** Behind the choice of what is reused: the rest is prefilled and recorded. */
  function Extend(s: State, ids: seq<int>, reused: nat, prefills: bool): (State, Reply)
    requires reused <= |ids|
  {
    var rest := ids[reused..];
    if rest != [] && !prefills then (ResetBoth(s), Refused)
    else
      var t := s.(hist := Push(s.hist, rest), cache := s.cache + rest);
      (t, Prefilled(|rest|, reused, |t.hist|))
  }

  function DoPrefill(s: State, ids: seq<int>, vocab: nat, resets: bool, prefills: bool): (State, Reply) {
    if ids == [] || |ids| > CTX_CAP - 1 || !InVocabulary(ids, vocab) then (s, Refused)
    else
      var common := Common(s.hist, ids, 0);
      if common == |s.hist| && |s.hist| > 0 && |ids| > |s.hist| then Extend(s, ids, |s.hist|, prefills)
      else if common == |ids| && |s.hist| == |ids| then (s, Prefilled(0, |ids|, |s.hist|))
      else if s.pinned > 0 && common < s.pinned then (s, Differs)
      else if !resets then (s, Refused)
      else Extend(ResetBoth(s), ids, s.pinned, prefills)
  }

  /** Room for one more token; its last place stays free. */
  predicate Room(s: State) {
    |s.hist| < CTX_CAP - 1
  }

  function Decoded(s: State, token: int): State {
    s.(hist := Push(s.hist, [token]), cache := s.cache + [token])
  }

  function Next(s: State, e: Event): (State, Reply) {
    match e
    case Prefill(ids, vocab, resets, prefills) => DoPrefill(s, ids, vocab, resets, prefills)
    case Step(token, decodes) =>
      if s.hist == [] || !Room(s) || !decodes then (s, Refused) else (Decoded(s, token), Stepped(|Decoded(s, token).hist|))
    case Pin(n, works) =>
      if s.pinned > 0 || n == 0 || n > |s.hist| || !works then (s, Refused)
      else (State(s.hist[..n], n, s.hist[..n], n), PinnedTo(n))
    case Unpin(works) => if works then (State([], 0, [], 0), Done) else (s, Refused)
    case Reset => (ResetBoth(s), Done)
  }

  // ------------------------------------------------------------------ invariant

  /** The history is what the engine's cache holds, and fits with one place free. */
  ghost predicate Inv(s: State) {
    s.hist == s.cache && s.pinned == s.kept && s.pinned <= |s.hist| <= CTX_CAP - 1
  }

  lemma NextKeeps(s: State, e: Event)
    requires Inv(s)
    ensures Inv(Next(s, e).0)
  {
    match e
    case Prefill(ids, vocab, resets, prefills) => PrefillExact(s, ids, vocab, resets, prefills);
    case _ =>
  }

  // ------------------------------------------------------------------ the diff prefill

  /** What the request is promised: the session as after a reset and a prefill of everything. */
  function ResetThenAll(s: State, ids: seq<int>): State {
    s.(hist := ids, cache := ids)
  }

  predicate WellFormed(ids: seq<int>, vocab: nat) {
    1 <= |ids| <= 4095 && forall i :: 0 <= i < |ids| ==> 0 <= ids[i] < vocab
  }

  predicate StartsPinned(s: State, ids: seq<int>)
    requires s.pinned <= |s.hist|
  {
    s.hist[..s.pinned] <= ids
  }

  /**
   A diff prefill that succeeds leaves exactly the request, as a reset and a full prefill would;
   it is refused for the pin exactly when the pinned prefix is not a prefix of the request;
   a failure leaves the session as it was or reset to its pin.
   */
  lemma PrefillExact(s: State, ids: seq<int>, vocab: nat, resets: bool, prefills: bool)
    requires Inv(s)
    ensures var (t, reply) := DoPrefill(s, ids, vocab, resets, prefills);
      && (reply.Prefilled? || reply.Differs? || reply.Refused?)
      && (reply.Differs? <==> WellFormed(ids, vocab) && !StartsPinned(s, ids))
      && (reply.Prefilled? ==> t == ResetThenAll(s, ids) && reply.count + reply.reused == |ids| == reply.n)
      && (reply.Differs? ==> t == s)
      && (reply.Refused? ==> t == s || t == ResetThenAll(s, s.hist[..s.pinned]))
      && (WellFormed(ids, vocab) && StartsPinned(s, ids) && resets && prefills ==> reply.Prefilled?)
  {
    assert WellFormed(ids, vocab) <==> ids != [] && |ids| <= CTX_CAP - 1 && InVocabulary(ids, vocab);
    if WellFormed(ids, vocab) {
      if s.hist <= ids {
        assert s.hist[..s.pinned] <= ids;
      } else if StartsPinned(s, ids) {
        assert ResetBoth(s) == ResetThenAll(s, s.hist[..s.pinned]);
      }
    }
  }

  /** The request only adds to a history, or is that history. */
  predicate Continues(s: State, ids: seq<int>) {
    s.hist != [] && s.hist <= ids
  }

  /**
   When a well-formed request that starts with the pin succeeds, and what a failure leaves: the engine's reset is
   needed exactly when the request does not continue the history, its prefill exactly when tokens are left; a reset
   that fails changes nothing, a prefill that fails goes back to the pin.
   */
  lemma PrefillSucceeds(s: State, ids: seq<int>, vocab: nat, resets: bool, prefills: bool)
    requires Inv(s)
    ensures var (t, reply) := DoPrefill(s, ids, vocab, resets, prefills);
      var left := ids != (if Continues(s, ids) then s.hist else s.hist[..s.pinned]);
      if !WellFormed(ids, vocab) then t == s && reply == Refused
      else if !StartsPinned(s, ids) then t == s && reply == Differs
      else if !Continues(s, ids) && !resets then t == s && reply == Refused
      else if left && !prefills then t == ResetThenAll(s, s.hist[..s.pinned]) && reply == Refused
      else t == ResetThenAll(s, ids) && reply.Prefilled?
  {
    PrefillExact(s, ids, vocab, resets, prefills);
    if WellFormed(ids, vocab) && StartsPinned(s, ids) {
      assert ResetBoth(s) == ResetThenAll(s, s.hist[..s.pinned]);
      CommonIsPrefix(s.hist, ids);
    }
  }

  lemma CommonIsPrefix(a: seq<int>, b: seq<int>)
    ensures Common(a, b, 0) == |a| <==> a <= b
  {
    var n := Common(a, b, 0);
    assert a[0..n] == a[..n] && b[0..n] == b[..n];
  }

  /** As little as the history allows is computed again. */
  lemma PrefillReuses(s: State, ids: seq<int>, vocab: nat)
    requires Inv(s) && WellFormed(ids, vocab) && StartsPinned(s, ids)
    ensures DoPrefill(s, ids, vocab, true, true).1 ==
      if s.hist <= ids then Prefilled(|ids| - |s.hist|, |s.hist|, |ids|)
      else Prefilled(|ids| - s.pinned, s.pinned, |ids|)
  {
    PrefillExact(s, ids, vocab, true, true);
    var common := Common(s.hist, ids, 0);
    assert s.hist[0..common] == s.hist[..common] && ids[0..common] == ids[..common];
    if s.hist <= ids {
      assert common == |s.hist|;
      assert |ids| == |s.hist| ==> s.hist == ids;
    }
  }

  /** Only unpinning moves or loses the pinned prefix; resets, refused and failed prefills do not. */
  lemma PinKept(s: State, e: Event)
    requires Inv(s) && 0 < s.pinned && !e.Unpin?
    ensures var t := Next(s, e).0; t.pinned == s.pinned && s.hist[..s.pinned] <= t.hist
  {
    NextKeeps(s, e);
  }

  /**
   What the other operations leave behind, history and cache alike: a step exactly one token more, when there is a
   history with room and the engine decodes; a pin the first tokens, when none is pinned; a reset the pinned ones.
   */
  lemma OperationsExact(s: State, token: int, n: nat, works: bool)
    requires Inv(s)
    ensures var (t, reply) := Next(s, Step(token, works));
      if 0 < |s.hist| < 4095 && works then
        t == s.(hist := s.hist + [token], cache := s.cache + [token]) && reply == Stepped(|s.hist| + 1)
      else t == s && reply == Refused
    ensures var (t, reply) := Next(s, Pin(n, works));
      if s.pinned == 0 && 0 < n <= |s.hist| && works then
        t.hist == t.cache == s.hist[..n] && t.pinned == t.kept == n && reply == PinnedTo(n)
      else t == s && reply == Refused
    ensures var (t, reply) := Next(s, Unpin(works));
      if works then t.hist == t.cache == [] && t.pinned == t.kept == 0 && reply == Done else t == s && reply == Refused
    ensures var (t, reply) := Next(s, Reset);
      t.hist == t.cache == s.hist[..s.pinned] && t.pinned == t.kept == s.pinned && reply == Done
  {
  }

  // ------------------------------------------------------------------ the program

  /** The engine session. */
  class Engine {
    var cache: seq<int>
    var kept: nat

    constructor ()
      ensures cache == [] && kept == 0
    {
      cache, kept := [], 0;
    }

    method Reset()
      modifies `cache
      ensures cache == if kept <= |old(cache)| then old(cache)[..kept] else old(cache)
    {
      if kept <= |cache| {
        cache := cache[..kept];
      }
    }

    method Prefill(ids: seq<int>, works: bool) returns (ok: bool)
      modifies `cache
      ensures ok == works && cache == if works then old(cache) + ids else old(cache)
    {
      if works {
        cache := cache + ids;
      }
      return works;
    }

    method PinPrefix(ids: seq<int>, works: bool) returns (ok: bool)
      modifies this
      ensures ok == works
      ensures if works then cache == ids && kept == |ids| else cache == old(cache) && kept == old(kept)
    {
      if works {
        cache, kept := ids, |ids|;
      }
      return works;
    }
  }

  class Resident {
    const hist: array<int>
    var n: nat
    var pinned: nat
    const engine: Engine

    ghost predicate Valid()
      reads this
    {
      n <= hist.Length && hist.Length == CTX_CAP
    }

    ghost function Abs(): State
      reads this, hist, engine
      requires Valid()
    {
      State(hist[..n], pinned, engine.cache, engine.kept)
    }

    constructor ()
      ensures Valid() && fresh(hist) && fresh(engine) && Abs() == INIT
    {
      hist := new int[CTX_CAP];
      n, pinned := 0, 0;
      engine := new Engine();
    }

    /** hist_push: the bytes are copied behind the history, or nothing when they do not fit. */
    method HistPush(ids: seq<int>)
      requires Valid()
      modifies `n, hist
      ensures Valid() && hist[..n] == Push(old(hist[..n]), ids)
    {
      if n + |ids| > CTX_CAP {
        return;
      }
      var i := 0;
      while i < |ids|
        modifies hist
        invariant i <= |ids|
        invariant hist[..n + i] == old(hist[..n]) + ids[..i]
      {
        hist[n + i] := ids[i];
        i := i + 1;
      }
      n := n + |ids|;
    }

    /** reset, and the reset behind a failed prefill; the program ignores the engine's result. */
    method Reset()
      requires Valid() && pinned <= n
      modifies `n, engine
      ensures Valid() && Abs() == ResetBoth(old(Abs()))
    {
      engine.Reset();
      n := pinned;
    }

    method CommonStart(ids: seq<int>) returns (common: nat)
      requires Valid()
      ensures common == Common(hist[..n], ids, 0)
    {
      common := 0;
      while common < n && common < |ids| && hist[common] == ids[common]
        invariant common <= n && common <= |ids|
        invariant Common(hist[..n], ids, common) == Common(hist[..n], ids, 0)
      {
        common := common + 1;
      }
    }

    /** op_prefill. */
    method Prefill(ids: seq<int>, vocab: nat, resets: bool, prefills: bool) returns (reply: Reply)
      requires Valid() && pinned <= n
      modifies `n, hist, engine
      ensures Valid() && (Abs(), reply) == DoPrefill(old(Abs()), ids, vocab, resets, prefills)
    {
      if |ids| == 0 || |ids| > CTX_CAP - 1 {
        return Refused;
      }
      var i := 0;
      while i < |ids|
        invariant i <= |ids| && forall j :: 0 <= j < i ==> 0 <= ids[j] < vocab
      {
        if ids[i] < 0 || ids[i] >= vocab {
          return Refused;
        }
        i := i + 1;
      }
      var common := CommonStart(ids);
      var reused := 0;
      if common == n && n > 0 && |ids| > n {
        reused := n;
      } else if common == |ids| && n == |ids| {
        return Prefilled(0, |ids|, n);
      } else {
        if pinned > 0 && common < pinned {
          return Differs;
        }
        if !resets {
          return Refused;
        }
        Reset();
        reused := pinned;
      }
      var rest := ids[reused..];
      if |rest| > 0 {
        var ok := engine.Prefill(rest, prefills);
        if !ok {
          Reset();
          return Refused;
        }
      }
      assert |rest| == 0 ==> engine.cache + rest == engine.cache;
      HistPush(rest);
      return Prefilled(|rest|, reused, n);
    }

    /** op_step; `token` is what the engine decodes. */
    method Step(token: int, decodes: bool) returns (reply: Reply)
      requires Valid()
      modifies `n, hist, engine
      ensures Valid() && (Abs(), reply) == Next(old(Abs()), Event.Step(token, decodes))
    {
      if n == 0 || n >= CTX_CAP - 1 {
        return Refused;
      }
      var ok := engine.Prefill([token], decodes);
      if !ok {
        return Refused;
      }
      HistPush([token]);
      return Stepped(n);
    }

    method Pin(count: nat, works: bool) returns (reply: Reply)
      requires Valid()
      modifies `n, `pinned, engine
      ensures Valid() && (Abs(), reply) == Next(old(Abs()), Event.Pin(count, works))
    {
      if pinned > 0 || count == 0 || count > n {
        return Refused;
      }
      var ok := engine.PinPrefix(hist[..count], works);
      if !ok {
        return Refused;
      }
      assert hist[..n][..count] == hist[..count];
      pinned, n := count, count;
      return PinnedTo(count);
    }

    method Unpin(works: bool) returns (reply: Reply)
      requires Valid()
      modifies `n, `pinned, engine
      ensures Valid() && (Abs(), reply) == Next(old(Abs()), Event.Unpin(works))
    {
      var ok := engine.PinPrefix([], works);
      if !ok {
        return Refused;
      }
      pinned, n := 0, 0;
      return Done;
    }
  }
}
