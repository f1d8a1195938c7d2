/**
 op_generate: the 512-byte window in which stop strings are looked for, and the loop that ends at the first
 token whose text completes one.

 Source: src/geistd.c:577-673. Pieces and stop strings are C strings, so the window keeps 511 bytes.
 */
module Generation {
  import opened Bytes
  import opened Session

  /** sizeof tail, with the terminating zero. */
  const WINDOW := 512

  function Last(s: Text, n: nat): (r: Text) {
    if |s| <= n then s else s[|s| - n..]
  }

  /** strstr: `part` stands somewhere in `whole`. */
  predicate Contains(whole: Text, part: Text) {
    exists at: nat :: at <= |whole| && Occurs(whole, at, part)
  }

  // ------------------------------------------------------------------ the window

  /** Keeping only a suffix loses nothing for a later suffix. */
  lemma LastOfLast(before: Text, piece: Text, n: nat)
    ensures Last(Last(before, n) + piece, n) == Last(before + piece, n)
  {
  }

  /** A stop string that is complete only with the last piece stands in the window, if both are short enough. */
  lemma WindowSees(before: Text, piece: Text, stop: Text)
    requires |stop| + |piece| <= WINDOW && stop != []
    requires !Contains(before, stop) && Contains(before + piece, stop)
    ensures Contains(Last(before + piece, WINDOW - 1), stop)
  {
    var whole := before + piece;
    var at: nat :| at <= |whole| && Occurs(whole, at, stop);
    if at + |stop| <= |before| {
      assert before[at..at + |stop|] == whole[at..at + |stop|];
      assert Occurs(before, at, stop);
    }
    var seen := Last(whole, WINDOW - 1);
    var skip := |whole| - |seen|;
    assert skip <= at;
    assert seen[at - skip..at - skip + |stop|] == whole[at..at + |stop|];
    assert Occurs(seen, at - skip, stop);
  }

  /** What stands in the window was produced. */
  lemma WindowHonest(whole: Text, stop: Text, n: nat)
    requires Contains(Last(whole, n), stop)
    ensures Contains(whole, stop)
  {
    var seen := Last(whole, n);
    var at: nat :| at <= |seen| && Occurs(seen, at, stop);
    var skip := |whole| - |seen|;
    assert whole[at + skip..at + skip + |stop|] == seen[at..at + |stop|];
    assert Occurs(whole, at + skip, stop);
  }

  function Repeat(b: byte, n: nat): (s: Text)
    ensures |s| == n && forall i :: 0 <= i < n ==> s[i] == b
  {
    seq(n, _ => b)
  }

  /** The window decides a stop string of this length behind a piece of this length, whatever came before. */
  ghost predicate WindowExact(stopLength: nat, pieceLength: nat) {
    forall before: Text, piece: Text, stop: Text ::
      |stop| == stopLength && |piece| == pieceLength && !Contains(before, stop) ==>
        Sees(before, piece, stop)
  }

  ghost predicate Sees(before: Text, piece: Text, stop: Text) {
    Contains(Last(before + piece, WINDOW - 1), stop) <==> Contains(before + piece, stop)
  }

  /** A stop string that begins in the dropped byte and ends with the first byte of a long piece is missed. */
  lemma WindowMisses(stopLength: nat, pieceLength: nat)
    requires 0 < stopLength && 0 < pieceLength && stopLength + pieceLength > WINDOW
    ensures var before := Repeat(97, stopLength - 1);
      var stop, piece := before + [98], [98] + Repeat(99, pieceLength - 1);
      !Contains(before, stop) && !Sees(before, piece, stop)
  {
    var before := Repeat(97, stopLength - 1);
    var stop, piece := before + [98], [98] + Repeat(99, pieceLength - 1);
    var whole := before + piece;
    assert whole[0..|stop|] == stop;
    assert Occurs(whole, 0, stop);
    var seen := Last(whole, WINDOW - 1);
    var skip := |whole| - |seen|;
    assert skip > 0;
    forall at: nat | at <= |seen| ensures !Occurs(seen, at, stop) {
      if Occurs(seen, at, stop) {
        OccursAt(seen, at, stop, stopLength - 1);
      }
    }
  }

  /** The exact bound: a stop string and the piece that completes it share 512 bytes. */
  lemma WindowExactIff(stopLength: nat, pieceLength: nat)
    requires 0 < stopLength && 0 < pieceLength
    ensures WindowExact(stopLength, pieceLength) <==> stopLength + pieceLength <= WINDOW
  {
    if stopLength + pieceLength <= WINDOW {
      forall before: Text, piece: Text, stop: Text
        | |stop| == stopLength && |piece| == pieceLength && !Contains(before, stop)
        ensures Sees(before, piece, stop)
      {
        if Contains(Last(before + piece, WINDOW - 1), stop) {
          WindowHonest(before + piece, stop, WINDOW - 1);
        } else if Contains(before + piece, stop) {
          WindowSees(before, piece, stop);
        }
      }
    } else {
      WindowMisses(stopLength, pieceLength);
    }
  }

  // ------------------------------------------------------------------ the loop

  /** A token without text has no piece. */
  datatype Piece = NoText | Piece(text: Text)

  /** What the engine and the client do in one turn. */
  datatype Turn = Turn(decodes: bool, token: int, piece: Piece, sends: bool)

  datatype Reason = MaxReached | ContextFull | EngineError | StopReached | ClientGone

  datatype Rules = Rules(max: nat, stopTokens: set<int>, stopStrings: seq<Text>)

  function Shift(tail: Text, piece: Piece): Text {
    if piece.Piece? then Last(tail + piece.text, WINDOW - 1) else tail
  }

  /** The test of one turn, on the text it is made on. */
  predicate Stops(text: Text, turn: Turn, rules: Rules) {
    turn.token in rules.stopTokens
    || (turn.piece.Piece? && exists i :: 0 <= i < |rules.stopStrings| && Contains(text, rules.stopStrings[i]))
  }

  /** A test of the text that stands in the window. */
  type Judge = (Text, Turn) -> bool

  function JudgeOf(rules: Rules): Judge {
    (text: Text, turn: Turn) => Stops(text, turn, rules)
  }

  /** The loop of op_generate from turn `k` on: the session, the reason and the reported count. */
  function Loop(s: State, tail: Text, k: nat, max: nat, judge: Judge, turns: seq<Turn>): (State, Reason, nat)
    requires max <= |turns|
    decreases max - k
  {
    if k >= max then (s, MaxReached, k)
    else if !Room(s) then (s, ContextFull, k)
    else if !turns[k].decodes then (s, EngineError, k)
    else
      var t := Decoded(s, turns[k].token);
      var window := Shift(tail, turns[k].piece);
      if !turns[k].sends then (t, ClientGone, k)
      else if judge(window, turns[k]) then (t, StopReached, k + 1)
      else Loop(t, window, k + 1, max, judge, turns)
  }

  /** All the text of the turns. */
  function Produced(turns: seq<Turn>): Text {
    if turns == [] then [] else
      var last := turns[|turns| - 1];
      Produced(turns[..|turns| - 1]) + if last.piece.Piece? then last.piece.text else []
  }

  function Tokens(turns: seq<Turn>): (ids: seq<int>)
    ensures |ids| == |turns|
  {
    seq(|turns|, i requires 0 <= i < |turns| => turns[i].token)
  }

  /** Turn `j` is told to stop by everything produced so far. */
  predicate Halts(turns: seq<Turn>, j: nat, rules: Rules)
    requires j < |turns|
  {
    Stops(Produced(turns[..j + 1]), turns[j], rules)
  }

  /** Every stop string shares the window with every piece. */
  ghost predicate Short(turns: seq<Turn>, rules: Rules) {
    forall i, j :: 0 <= i < |rules.stopStrings| && 0 <= j < |turns| && turns[j].piece.Piece? ==>
      |rules.stopStrings[i]| + |turns[j].piece.text| <= WINDOW
  }

  lemma ProducedNext(turns: seq<Turn>, k: nat)
    requires k < |turns|
    ensures Produced(turns[..k + 1]) == Produced(turns[..k]) + if turns[k].piece.Piece? then turns[k].piece.text else []
  {
    assert turns[..k + 1][..k] == turns[..k];
  }

  /** The window is the end of everything produced. */
  lemma ShiftKeeps(turns: seq<Turn>, k: nat)
    requires k < |turns|
    ensures Shift(Last(Produced(turns[..k]), WINDOW - 1), turns[k].piece) == Last(Produced(turns[..k + 1]), WINDOW - 1)
  {
    ProducedNext(turns, k);
    if turns[k].piece.Piece? {
      LastOfLast(Produced(turns[..k]), turns[k].piece.text, WINDOW - 1);
    } else {
      assert Produced(turns[..k]) + [] == Produced(turns[..k]);
    }
  }

  /** No stop string stands in what was produced before turn `k`. */
  ghost predicate Clear(turns: seq<Turn>, k: nat, rules: Rules)
    requires k <= |turns|
  {
    forall i :: 0 <= i < |rules.stopStrings| && rules.stopStrings[i] != [] ==> !Contains(Produced(turns[..k]), rules.stopStrings[i])
  }

  lemma TurnHonest(turns: seq<Turn>, k: nat, rules: Rules)
    requires k < |turns| && Stops(Last(Produced(turns[..k + 1]), WINDOW - 1), turns[k], rules)
    ensures Halts(turns, k, rules)
  {
    if turns[k].token !in rules.stopTokens {
      var i :| 0 <= i < |rules.stopStrings| && Contains(Last(Produced(turns[..k + 1]), WINDOW - 1), rules.stopStrings[i]);
      WindowHonest(Produced(turns[..k + 1]), rules.stopStrings[i], WINDOW - 1);
    }
  }

  lemma TurnSees(turns: seq<Turn>, k: nat, rules: Rules)
    requires k < |turns| && Short(turns, rules) && Clear(turns, k, rules)
    requires Halts(turns, k, rules)
    ensures Stops(Last(Produced(turns[..k + 1]), WINDOW - 1), turns[k], rules)
  {
    if turns[k].token !in rules.stopTokens {
      ProducedNext(turns, k);
      var i :| 0 <= i < |rules.stopStrings| && Contains(Produced(turns[..k + 1]), rules.stopStrings[i]);
      var stop := rules.stopStrings[i];
      if stop == [] {
        assert Occurs(Last(Produced(turns[..k + 1]), WINDOW - 1), 0, stop);
      } else {
        WindowSees(Produced(turns[..k]), turns[k].piece.text, stop);
      }
    }
  }

  lemma ClearNext(turns: seq<Turn>, k: nat, rules: Rules)
    requires k < |turns| && Clear(turns, k, rules) && !Halts(turns, k, rules)
    ensures Clear(turns, k + 1, rules)
  {
    ProducedNext(turns, k);
    if turns[k].piece.NoText? {
      assert Produced(turns[..k]) + [] == Produced(turns[..k]);
    }
  }

  /** The turns that appended a token. */
  function Appended(reason: Reason, k: nat): nat {
    if reason == ClientGone then k + 1 else k
  }

  lemma {:induction false} LoopAppends(s: State, tail: Text, k: nat, max: nat, judge: Judge, turns: seq<Turn>)
    requires Inv(s) && max <= |turns| && k <= max
    ensures var (t, reason, n) := Loop(s, tail, k, max, judge, turns);
      && k <= n <= Appended(reason, n) <= max
      && Inv(t) && t.pinned == s.pinned && t.hist == s.hist + Tokens(turns[k..Appended(reason, n)])
      && (reason == MaxReached ==> n == max)
      && (reason == ContextFull ==> |t.hist| == CTX_CAP - 1)
    decreases max - k
  {
    if k < max && Room(s) && turns[k].decodes {
      var t := Decoded(s, turns[k].token);
      var window := Shift(tail, turns[k].piece);
      assert Tokens(turns[k..k + 1]) == [turns[k].token];
      if turns[k].sends && !judge(window, turns[k]) {
        LoopAppends(t, window, k + 1, max, judge, turns);
        var (_, reason, n) := Loop(t, window, k + 1, max, judge, turns);
        TokensNext(turns, k, Appended(reason, n));
        assert t.hist == s.hist + [turns[k].token];
      }
    }
  }

  lemma TokensNext(turns: seq<Turn>, k: nat, n: nat)
    requires k < n <= |turns|
    ensures Tokens(turns[k..n]) == [turns[k].token] + Tokens(turns[k + 1..n])
  {
  }

  /** The window after turn `j`. */
  function WindowAt(turns: seq<Turn>, j: nat): Text
    requires j < |turns|
  {
    Last(Produced(turns[..j + 1]), WINDOW - 1)
  }

  ghost predicate NoneJudged(turns: seq<Turn>, k: nat, n: int, judge: Judge) {
    n <= |turns| && forall j: nat :: k <= j < n ==> !judge(WindowAt(turns, j), turns[j])
  }

  /** The loop ends at the first turn whose window is judged to stop. */
  lemma {:induction false} LoopJudges(s: State, k: nat, max: nat, judge: Judge, turns: seq<Turn>)
    requires max <= |turns| && k <= max
    ensures var (_, reason, n) := Loop(s, Last(Produced(turns[..k]), WINDOW - 1), k, max, judge, turns);
      && k <= n <= max
      && (reason == StopReached ==> k < n && judge(WindowAt(turns, n - 1), turns[n - 1]) && NoneJudged(turns, k, n - 1, judge))
      && (reason != StopReached ==> NoneJudged(turns, k, n, judge))
    decreases max - k
  {
    if k < max && Room(s) && turns[k].decodes && turns[k].sends {
      ShiftKeeps(turns, k);
      if !judge(WindowAt(turns, k), turns[k]) {
        LoopJudges(Decoded(s, turns[k].token), k + 1, max, judge, turns);
      }
    }
  }

  /** No turn below `n` is told to stop. */
  ghost predicate NoneHalts(turns: seq<Turn>, n: int, rules: Rules) {
    n <= |turns| && forall j: nat :: j < n ==> !Halts(turns, j, rules)
  }

  lemma GoesClear(turns: seq<Turn>, k: nat, rules: Rules)
    requires k < |turns| && Short(turns, rules) && Clear(turns, k, rules)
    requires !Stops(WindowAt(turns, k), turns[k], rules)
    ensures !Halts(turns, k, rules) && Clear(turns, k + 1, rules)
  {
    if Halts(turns, k, rules) {
      TurnSees(turns, k, rules);
    }
    ClearNext(turns, k, rules);
  }

  /** With short stop strings the windows miss nothing. */
  lemma {:induction false} NoneMissed(turns: seq<Turn>, n: nat, rules: Rules)
    requires Short(turns, rules) && NoneJudged(turns, 0, n, JudgeOf(rules))
    ensures NoneHalts(turns, n, rules) && Clear(turns, n, rules)
    decreases n
  {
    if n > 0 {
      NoneMissed(turns, n - 1, rules);
      assert !JudgeOf(rules)(WindowAt(turns, n - 1), turns[n - 1]);
      GoesClear(turns, n - 1, rules);
    } else {
      assert Produced(turns[..0]) == [];
    }
  }

  /**
   A generation appends exactly the tokens it reports (one more when the client went away, which is not
   reported), stops only where everything produced says so, and, with short stop strings, at the first such turn.
   */
  lemma Generates(s: State, rules: Rules, turns: seq<Turn>)
    requires Inv(s) && rules.max <= |turns|
    ensures var (t, reason, n) := Loop(s, [], 0, rules.max, JudgeOf(rules), turns);
      && n <= Appended(reason, n) <= rules.max
      && Inv(t) && t.pinned == s.pinned && t.hist == s.hist + Tokens(turns[0..Appended(reason, n)])
      && (reason == StopReached ==> n > 0 && Halts(turns, n - 1, rules))
      && (Short(turns, rules) ==> NoneHalts(turns, if reason == StopReached then n - 1 else n, rules))
  {
    assert Last(Produced(turns[..0]), WINDOW - 1) == [];
    LoopAppends(s, [], 0, rules.max, JudgeOf(rules), turns);
    LoopJudges(s, 0, rules.max, JudgeOf(rules), turns);
    var (_, reason, n) := Loop(s, [], 0, rules.max, JudgeOf(rules), turns);
    if reason == StopReached {
      TurnHonest(turns, n - 1, rules);
    }
    if Short(turns, rules) {
      NoneMissed(turns, if reason == StopReached then n - 1 else n, rules);
    }
  }

  // ------------------------------------------------------------------ every reason by its cause

  /** The token of turn `k` is a stop token, or its piece brings a stop string into the last 511 bytes produced. */
  ghost predicate Told(turns: seq<Turn>, k: nat, rules: Rules)
    requires k < |turns|
  {
    turns[k].token in rules.stopTokens
    || (turns[k].piece.Piece?
        && exists i :: 0 <= i < |rules.stopStrings| && Contains(Last(Produced(turns[..k + 1]), 511), rules.stopStrings[i]))
  }

  /** Behind turn `k` another one follows: there was room, the engine decoded, the client took it, nothing said stop. */
  ghost predicate GoesOn(hist: nat, turns: seq<Turn>, k: nat, rules: Rules)
    requires k < |turns|
  {
    hist + k < CTX_CAP - 1 && turns[k].decodes && turns[k].sends && !Told(turns, k, rules)
  }

  ghost predicate Reaches(hist: nat, turns: seq<Turn>, k: nat, rules: Rules) {
    k <= |turns| && forall j: nat :: j < k ==> GoesOn(hist, turns, j, rules)
  }

  /** Turn `k` is reached and ends the generation for this reason. */
  ghost predicate EndsAt(hist: nat, turns: seq<Turn>, k: nat, rules: Rules, reason: Reason)
    requires rules.max <= |turns|
  {
    && k <= rules.max && Reaches(hist, turns, k, rules)
    && match reason
       case MaxReached => k == rules.max
       case ContextFull => k < rules.max && hist + k >= CTX_CAP - 1
       case EngineError => k < rules.max && hist + k < CTX_CAP - 1 && !turns[k].decodes
       case ClientGone => k < rules.max && hist + k < CTX_CAP - 1 && turns[k].decodes && !turns[k].sends
       case StopReached =>
         k < rules.max && hist + k < CTX_CAP - 1 && turns[k].decodes && turns[k].sends && Told(turns, k, rules)
  }

  /** The turn that ended a loop with this reason and count. */
  function LastTurn(reason: Reason, n: nat): int {
    if reason == StopReached then n - 1 else n
  }

  lemma {:induction false} LoopEnds(s: State, hist: nat, k: nat, rules: Rules, turns: seq<Turn>)
    requires Inv(s) && rules.max <= |turns| && k <= rules.max && |s.hist| == hist + k && Reaches(hist, turns, k, rules)
    ensures var (_, reason, n) := Loop(s, Last(Produced(turns[..k]), WINDOW - 1), k, rules.max, JudgeOf(rules), turns);
      0 <= LastTurn(reason, n) && EndsAt(hist, turns, LastTurn(reason, n), rules, reason)
    decreases rules.max - k
  {
    if k < rules.max && Room(s) && turns[k].decodes && turns[k].sends {
      ShiftKeeps(turns, k);
      if GoesOn(hist, turns, k, rules) {
        LoopEnds(Decoded(s, turns[k].token), hist, k + 1, rules, turns);
      }
    }
  }

  /**
   Every reason exactly by its cause, and the count with it: the generation ends where the first turn does not go
   on, or behind all of them; a turn that is told to stop is counted, and no other last one.
   */
  lemma ReasonByCause(s: State, rules: Rules, turns: seq<Turn>, k: nat, why: Reason)
    requires Inv(s) && rules.max <= |turns|
    ensures var (_, reason, n) := Loop(s, [], 0, rules.max, JudgeOf(rules), turns);
      EndsAt(|s.hist|, turns, k, rules, why) <==> reason == why && n == if why == StopReached then k + 1 else k
  {
    assert Last(Produced(turns[..0]), WINDOW - 1) == [];
    LoopEnds(s, |s.hist|, 0, rules, turns);
    var (_, reason, n) := Loop(s, [], 0, rules.max, JudgeOf(rules), turns);
    if EndsAt(|s.hist|, turns, k, rules, why) {
      OneEnd(|s.hist|, turns, rules, k, why, LastTurn(reason, n), reason);
    }
  }

  /** A generation has one end. */
  lemma OneEnd(hist: nat, turns: seq<Turn>, rules: Rules, k: nat, why: Reason, l: nat, reason: Reason)
    requires rules.max <= |turns| && EndsAt(hist, turns, k, rules, why) && EndsAt(hist, turns, l, rules, reason)
    ensures k == l && why == reason
  {
    assert k < l ==> GoesOn(hist, turns, k, rules);
    assert l < k ==> GoesOn(hist, turns, l, rules);
  }

  /** With room, a working engine and a listening client, only a stop ends it before its last turn. */
  lemma Progress(s: State, rules: Rules, turns: seq<Turn>)
    requires Inv(s) && rules.max <= |turns| && |s.hist| + rules.max <= CTX_CAP - 1
    requires forall j :: 0 <= j < rules.max ==> turns[j].decodes && turns[j].sends
    ensures var (t, reason, n) := Loop(s, [], 0, rules.max, JudgeOf(rules), turns);
      && n <= rules.max && t.hist == s.hist + Tokens(turns[..n])
      && (forall j: nat :: j + 1 < n ==> !Told(turns, j, rules))
      && (if reason == StopReached then 0 < n && Told(turns, n - 1, rules)
          else reason == MaxReached && n == rules.max && (n > 0 ==> !Told(turns, n - 1, rules)))
  {
    var (_, reason, n) := Loop(s, [], 0, rules.max, JudgeOf(rules), turns);
    Generates(s, rules, turns);
    assert Last(Produced(turns[..0]), WINDOW - 1) == [];
    LoopEnds(s, |s.hist|, 0, rules, turns);
    forall j: nat | j < LastTurn(reason, n) ensures !Told(turns, j, rules) {
      assert GoesOn(|s.hist|, turns, j, rules);
    }
  }

  // ------------------------------------------------------------------ runs of all operations

  datatype Operation = Plain(event: Event) | Generating(rules: Rules, turns: seq<Turn>)

  /** One request to the session; `turns` answers as many turns as a generation may take. */
  function Operate(s: State, o: Operation): State {
    match o
    case Plain(e) => Next(s, e).0
    case Generating(rules, turns) =>
      if s.hist == [] || rules.max > |turns| then s else Loop(s, [], 0, rules.max, JudgeOf(rules), turns).0
  }

  function Work(s: State, os: seq<Operation>): State
    decreases |os|
  {
    if os == [] then s else Work(Operate(s, os[0]), os[1..])
  }

  /** A generation without a history is refused; any other one appends the tokens of its turns, in order. */
  lemma OperateGenerates(s: State, rules: Rules, turns: seq<Turn>)
    requires Inv(s) && rules.max <= |turns|
    ensures var t := Operate(s, Generating(rules, turns));
      if s.hist == [] then t == s
      else var (_, reason, n) := Loop(s, [], 0, rules.max, JudgeOf(rules), turns);
           n <= Appended(reason, n) <= rules.max && t.hist == t.cache == s.hist + Tokens(turns[..Appended(reason, n)])
  {
    Generates(s, rules, turns);
    var (_, reason, n) := Loop(s, [], 0, rules.max, JudgeOf(rules), turns);
    assert turns[0..Appended(reason, n)] == turns[..Appended(reason, n)];
  }

  lemma OperateKeeps(s: State, o: Operation)
    requires Inv(s)
    ensures var t := Operate(s, o);
      && Inv(t)
      && (0 < s.pinned && o != Plain(Unpin(true)) ==> t.pinned == s.pinned && s.hist[..s.pinned] <= t.hist)
  {
    match o
    case Plain(e) =>
      NextKeeps(s, e);
      if 0 < s.pinned && !e.Unpin? {
        PinKept(s, e);
      }
    case Generating(rules, turns) =>
      if rules.max <= |turns| {
        LoopAppends(s, [], 0, rules.max, JudgeOf(rules), turns);
      }
  }

  /** In every run of all operations the history is the cache: hist_push has never refused, and the pin is inside. */
  lemma {:induction false} WorkKeeps(s: State, os: seq<Operation>)
    requires Inv(s)
    ensures Inv(Work(s, os))
    decreases |os|
  {
    if os != [] {
      OperateKeeps(s, os[0]);
      WorkKeeps(Operate(s, os[0]), os[1..]);
    }
  }

  /** Until it is unpinned no run of operations, generations included, moves or loses the pinned prefix. */
  lemma {:induction false} PinnedStays(s: State, os: seq<Operation>)
    requires Inv(s) && 0 < s.pinned && forall i :: 0 <= i < |os| ==> os[i] != Plain(Unpin(true))
    ensures var t := Work(s, os); t.pinned == s.pinned && s.hist[..s.pinned] <= t.hist && s.hist[..s.pinned] <= t.cache
    decreases |os|
  {
    if os != [] {
      assert os[0] != Plain(Unpin(true));
      OperateKeeps(s, os[0]);
      var t := Operate(s, os[0]);
      WorkKeeps(t, os[1..]);
      PinnedStays(t, os[1..]);
      assert t.hist[..s.pinned] == s.hist[..s.pinned];
    } else {
      assert s.hist[..s.pinned] <= s.hist;
    }
  }

  // ------------------------------------------------------------------ the program

  /** The buffer `tail`; `length` is its strlen. */
  class Tail {
    const bytes: array<byte>
    var length: nat

    ghost predicate Valid()
      reads this
    {
      bytes.Length == WINDOW && length < WINDOW
    }

    function Text(): Text
      requires Valid()
      reads this, bytes
    {
      bytes[..length]
    }

    constructor ()
      ensures Valid() && fresh(bytes) && Text() == []
    {
      bytes := new byte[WINDOW];
      length := 0;
    }

    method Copy(at: nat, text: Text)
      requires Valid() && at + |text| < WINDOW
      modifies bytes
      ensures bytes[..at + |text|] == old(bytes[..at]) + text
    {
      var i := 0;
      while i < |text|
        invariant i <= |text|
        invariant bytes[..at + i] == old(bytes[..at]) + text[..i]
      {
        bytes[at + i] := text[i];
        i := i + 1;
      }
    }

    /** memmove of what is kept to the front. */
    method Drop(count: nat)
      requires Valid() && count <= length
      modifies this, bytes
      ensures Valid() && Text() == old(Text())[count..]
    {
      ghost var was := bytes[..length];
      var i := 0;
      while i < length - count
        modifies bytes
        invariant i <= length - count
        invariant forall q :: 0 <= q < i ==> bytes[q] == was[q + count]
        invariant forall q :: i <= q < length ==> bytes[q] == was[q]
      {
        bytes[i] := bytes[i + count];
        i := i + 1;
      }
      length := length - count;
    }

    /** Appends a piece, sliding the window. */
    method Append(text: Text)
      requires Valid()
      modifies this, bytes
      ensures Valid() && Text() == Last(old(Text()) + text, WINDOW - 1)
    {
      if |text| >= WINDOW {
        Copy(0, text[|text| - WINDOW + 1..]);
        length := WINDOW - 1;
      } else {
        if length + |text| >= WINDOW {
          Drop(length + |text| - WINDOW + 1);
        }
        Copy(length, text);
        length := length + |text|;
      }
    }
  }

  method StopsNow(tail: Tail, turn: Turn, rules: Rules) returns (stop: bool)
    requires tail.Valid()
    ensures stop == Stops(tail.Text(), turn, rules)
  {
    stop := turn.token in rules.stopTokens;
    if turn.piece.Piece? {
      var i := 0;
      while i < |rules.stopStrings|
        invariant i <= |rules.stopStrings|
        invariant stop == (turn.token in rules.stopTokens
                           || exists l :: 0 <= l < i && Contains(tail.Text(), rules.stopStrings[l]))
      {
        if Contains(tail.Text(), rules.stopStrings[i]) {
          stop := true;
        }
        i := i + 1;
      }
    }
  }

  /** op_generate. */
  method Generate(x: Resident, rules: Rules, turns: seq<Turn>) returns (reason: Reason, count: nat)
    requires x.Valid() && rules.max <= |turns|
    modifies x, x.hist, x.engine
    ensures x.Valid() && (x.Abs(), reason, count) == Loop(old(x.Abs()), [], 0, rules.max, JudgeOf(rules), turns)
  {
    var tail := new Tail();
    reason, count := MaxReached, 0;
    while count < rules.max
      invariant count <= rules.max && x.Valid() && tail.Valid() && fresh(tail) && fresh(tail.bytes) && reason == MaxReached
      invariant Loop(x.Abs(), tail.Text(), count, rules.max, JudgeOf(rules), turns) == Loop(old(x.Abs()), [], 0, rules.max, JudgeOf(rules), turns)
    {
      if x.n >= CTX_CAP - 1 {
        return ContextFull, count;
      }
      var turn := turns[count];
      var ok := x.engine.Prefill([turn.token], turn.decodes);
      if !ok {
        return EngineError, count;
      }
      x.HistPush([turn.token]);
      if turn.piece.Piece? {
        tail.Append(turn.piece.text);
      }
      var stop := StopsNow(tail, turn, rules);
      if !turn.sends {
        return ClientGone, count;
      }
      count := count + 1;
      if stop {
        return StopReached, count;
      }
    }
  }
}
