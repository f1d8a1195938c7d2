/** The answer of a request to the resident chat by its cause: from what is held, the request and the environment. */
module ChatOutcomes {
  import opened ResidentChat

  /** How the calls of an attempt came out. */
  datatype Verdict = NoChat | BrokenCall | LostChat | Replied(reply: SendReply)

  /** The held chat belongs to this daemon and was opened under the requested options. */
  predicate Reusable(s: State, r: Request) {
    s.held.id != 0 && s.held.path == s.daemon.path && s.held.options == r.options
  }

  ghost predicate Begins(r: Request, msgs: seq<Msg>) {
    |msgs| <= |r.messages| && Alike(msgs, r.messages[..|msgs|])
  }

  /** What is held is not the beginning of the request, or leaves nothing to send. */
  ghost predicate MustRewind(s: State, r: Request) {
    !Begins(r, s.held.msgs) || |s.held.msgs| == |r.messages|
  }

  /** A fresh chat is opened and sent everything. */
  function FreshVerdict(id: nat, e: Script): Verdict {
    if !e.opens then NoChat
    else if e.send.SendBroken? then BrokenCall
    else if id in e.lostBySend then LostChat
    else Replied(e.send)
  }

  ghost function HeldVerdict(s: State, r: Request, e: Script): Verdict {
    var rewinds := MustRewind(s, r);
    var there := s.held.id in s.daemon.chats && (rewinds ==> s.held.id !in e.lostByRewind);
    if rewinds && e.rewind.Broken? then BrokenCall
    else if rewinds && !there then LostChat
    else if e.send.SendBroken? then BrokenCall
    else if !there || s.held.id in e.lostBySend then LostChat
    else Replied(e.send)
  }

  ghost function FirstVerdict(s: State, r: Request, e: Script): Verdict {
    if Reusable(s, r) then HeldVerdict(s, r, e) else FreshVerdict(s.daemon.nextId, e)
  }

  /** The verdict that decides: only a lost chat is tried again, with a fresh one. */
  ghost function Deciding(s: State, r: Request, a: Script, b: Script): Verdict {
    var first := FirstVerdict(s, r, a);
    if first.LostChat? then FreshVerdict(if Reusable(s, r) then s.daemon.nextId else s.daemon.nextId + 1, b) else first
  }

  predicate InRange(r: Request) {
    1 <= |r.messages| <= 64
  }

  /** The request gets as far as the chat. */
  predicate Admissible(contact: Contact, r: Request) {
    contact == Ready && InRange(r) && r.max <= 4095
  }

  /** All chats the environment drops in the script. */
  function Dropped(e: Script): set<nat> {
    e.lostByOpen + e.lostByRewind + e.lostBySend
  }

  /** The app's own chat at this daemon. */
  predicate Names(s: State, id: nat) {
    s.held.id != 0 && s.held.id == id && s.held.path == s.daemon.path
  }

  /** The chats of others are as they were, but for those the environment dropped. */
  ghost predicate OthersKept(s: State, t: State, dropped: set<nat>) {
    && (forall id :: id in t.daemon.chats && !Names(t, id) ==> id in s.daemon.chats && t.daemon.chats[id] == s.daemon.chats[id])
    && (forall id :: id in s.daemon.chats && !Names(s, id) && id !in dropped ==>
          id in t.daemon.chats && t.daemon.chats[id] == s.daemon.chats[id])
  }

  // ------------------------------------------------------------------ one message

  /** What the model tells apart: the text, and whether the system or the assistant speaks; any other role is the user. */
  lemma MessagesAlike(a: Msg, b: Msg)
    ensures Same(a, b) <==>
      a.content == b.content && (a.role == "system" <==> b.role == "system") && (a.role == "assistant" <==> b.role == "assistant")
  {
  }

  // ------------------------------------------------------------------ one attempt

  function ResultOf(v: Verdict): Result {
    match v
    case NoChat => Over(Failed)
    case BrokenCall => Over(Failed)
    case LostChat => Again
    case Replied(Refused(context)) => Over(if context then Declined else Failed)
    case Replied(SendBroken(_)) => Over(Failed)
    case Replied(Answered(answer, _, finish)) =>
      Over(match finish case Client => Cancelled case Other => Failed case _ => Success(answer))
  }

  /** The model was asked, once and the whole request, exactly when it answered. */
  ghost predicate AskedWhen(s: State, t: State, r: Request, v: Verdict) {
    if v.Replied? && v.reply.Answered? then
      |t.daemon.asked| == |s.daemon.asked| + 1 && s.daemon.asked <= t.daemon.asked && Answers(t.daemon.asked[|s.daemon.asked|], r)
    else t.daemon.asked == s.daemon.asked
  }

  /** What an attempt leaves behind. */
  ghost predicate Left(s: State, t: State, r: Request, v: Verdict, dropped: set<nat>) {
    && t.daemon.path == s.daemon.path
    && AskedWhen(s, t, r, v)
    && (v.LostChat? || v.NoChat? ==> t.held.id == 0 && Fresh(t))
    && (v.LostChat? || v.NoChat? || (v.Replied? && v.reply.Refused?) ==> OthersKept(s, t, dropped))
    && (v.Replied? && v.reply.Refused? ==>
          t.held.id in t.daemon.chats && Begins(r, t.daemon.chats[t.held.id].msgs))
  }

  /** A broken call leaves whatever chats the daemon has then. */
  ghost predicate Broke(t: State, rewinds: bool, v: Verdict, e: Script) {
    v.BrokenCall? ==>
      if rewinds && e.rewind.Broken? then t.daemon.chats == e.rewind.left
      else e.send.SendBroken? && t.daemon.chats == e.send.left
  }

  /** A held chat that does not fit is closed in front of another one, if the daemon does so. */
  ghost predicate Closed(s: State, t: State, v: Verdict, e: Script) {
    !v.BrokenCall? && e.closes && Names(s, s.held.id) ==> s.held.id !in t.daemon.chats
  }

  lemma CommonWhole(s: State, r: Request)
    requires r.messages != []
    ensures Common(s.held.msgs, r.messages, 0) == |s.held.msgs| <==> !MustRewind(s, r)
    ensures Begins(r, s.held.msgs[..Common(s.held.msgs, r.messages, 0)])
  {
    CommonAlike(s.held.msgs, r.messages, 0);
    var n := |s.held.msgs|;
    assert s.held.msgs[..n] == s.held.msgs;
    if !MustRewind(s, r) {
      CommonLongest(s.held.msgs, r.messages, 0, n);
    }
  }

  /** The send to a chat that is known to hold the beginning of the request. */
  lemma SendTold(s: State, r: Request, keep: nat, e: Script)
    requires s.held.id != 0 && s.held.options == r.options && keep < |r.messages| && |s.held.msgs| == keep && Begins(r, s.held.msgs)
    requires s.held.id in s.daemon.chats ==> Alike(s.daemon.chats[s.held.id].msgs, s.held.msgs) && s.daemon.chats[s.held.id].options == r.options
    requires Fresh(s)
    ensures var (t, result) := Send(s, r, keep, e);
      var v := if e.send.SendBroken? then BrokenCall
               else if s.held.id !in s.daemon.chats || s.held.id in e.lostBySend then LostChat else Replied(e.send);
      result == ResultOf(v) && Left(s, t, r, v, e.lostBySend) && Broke(t, false, v, e)
  {
    var d := Lose(s.daemon, e.lostBySend);
    if e.send.Answered? && s.held.id in d.chats {
      var chat := d.chats[s.held.id];
      assert r.messages == r.messages[..keep] + r.messages[keep..];
      assert Alike(chat.msgs + r.messages[keep..], r.messages);
    }
  }

  lemma RewindTold(s: State, r: Request, e: Script)
    requires Inv(s) && Reusable(s, r) && r.messages != []
    ensures var (t, result) := Rewind(s, r, Common(s.held.msgs, r.messages, 0), e);
      var v := HeldVerdict(s, r, e);
      result == ResultOf(v) && Left(s, t, r, v, Dropped(e)) && Broke(t, MustRewind(s, r), v, e)
  {
    var keep := Common(s.held.msgs, r.messages, 0);
    CommonWhole(s, r);
    if keep == |s.held.msgs| {
      assert s.held.msgs[..keep] == s.held.msgs;
      SendTold(s, r, keep, e);
    } else {
      var d := Lose(s.daemon, e.lostByRewind);
      if e.rewind.Done? && s.held.id in d.chats {
        SendTold(State(s.held.(msgs := s.held.msgs[..keep]), Rewound(d, s.held.id, keep)), r, keep, e);
      }
    }
  }

  lemma FreshTold(s: State, r: Request, e: Script)
    requires Fresh(s) && !Reusable(s, r) && r.messages != []
    ensures var (t, result) := Attempt(s, r, e);
      var v := FreshVerdict(s.daemon.nextId, e);
      && result == ResultOf(v) && Left(s, t, r, v, Dropped(e)) && Broke(t, false, v, e) && Closed(s, t, v, e)
      && (e.opens ==> t.daemon.nextId == s.daemon.nextId + 1)
  {
    if e.opens {
      var t := Opened(s, r, e);
      assert Begins(r, []) && Common(t.held.msgs, r.messages, 0) == 0;
      SendTold(t, r, 0, e);
    }
  }

  lemma AttemptTold(s: State, r: Request, e: Script)
    requires Inv(s) && r.messages != []
    ensures var (t, result) := Attempt(s, r, e);
      var v := FirstVerdict(s, r, e);
      && result == ResultOf(v) && Left(s, t, r, v, Dropped(e))
      && (if Reusable(s, r) then Broke(t, MustRewind(s, r), v, e) else Broke(t, false, v, e) && Closed(s, t, v, e))
      && (v.LostChat? ==> t.daemon.nextId == if Reusable(s, r) then s.daemon.nextId else s.daemon.nextId + 1)
  {
    if Reusable(s, r) {
      RewindTold(s, r, e);
    } else {
      FreshTold(s, r, e);
    }
  }

  // ------------------------------------------------------------------ the request

  function OutcomeOf(v: Verdict): Outcome {
    if ResultOf(v).Over? then ResultOf(v).outcome else Failed
  }

  lemma AttemptsTold(s: State, r: Request, a: Script, b: Script)
    requires Inv(s) && r.messages != []
    ensures var (t, outcome) := Attempts(s, r, [a, b]);
      var v := Deciding(s, r, a, b);
      outcome == OutcomeOf(v) && Left(s, t, r, v, Dropped(a) + Dropped(b))
  {
    AttemptTold(s, r, a);
    var (u, result) := Attempt(s, r, a);
    assert [a, b][1..] == [b] && [b][1..] == [];
    if result.Again? {
      FreshTold(u, r, b);
      var (t, last) := Attempt(u, r, b);
      assert Attempts(u, r, [b]) == if last.Over? then (t, last.outcome) else Attempts(t, r, []);
    }
  }

  /**
   Behind any history the answer by its cause: 400 exactly without a chat format or when a live chat refused for the
   context, 499 exactly when the model stopped because of the client, a success exactly when it finished otherwise;
   everything else fails. A refusal changes no chat but for what was lost, and asks nothing.
   */
  lemma OutcomeByCause(es: seq<Event>, contact: Contact, r: Request, a: Script, b: Script)
    ensures var s := Run(INIT, es);
      var (t, outcome) := Ask(s, contact, r, [a, b]);
      var v := Deciding(s, r, a, b);
      && (outcome.Declined? <==>
            InRange(r) && (contact == NoChatFormat || (Admissible(contact, r) && v == Replied(Refused(true)))))
      && (outcome.Cancelled? <==> Admissible(contact, r) && v.Replied? && v.reply.Answered? && v.reply.finish == Client)
      && (outcome.Success? <==>
            Admissible(contact, r) && v.Replied? && v.reply.Answered? && v.reply.finish in {Stop, Length, Context})
      && (outcome.Success? ==> outcome.answer == v.reply.answer)
      && (if Admissible(contact, r) then Left(s, t, r, v, Dropped(a) + Dropped(b)) else t == s)
  {
    RunKeeps(INIT, es);
    if InRange(r) {
      AttemptsTold(Run(INIT, es), r, a, b);
    }
  }

  /** The child is replaced, and every chat with it, exactly when the client went away or the answer was no answer. */
  lemma ServedReplaces(es: seq<Event>, contact: Contact, r: Request, a: Script, b: Script, gone: bool)
    ensures var s := Run(INIT, es);
      var (t, outcome) := Served(s, contact, r, [a, b], gone);
      var u := Ask(s, contact, r, [a, b]).0;
      && outcome == Ask(s, contact, r, [a, b]).1
      && (t.daemon.path != s.daemon.path <==> gone || outcome.Cancelled? || outcome.Failed?)
      && (if t.daemon.path != s.daemon.path then t.daemon.chats == map[] && t.held == u.held else t == u)
  {
    OutcomeByCause(es, contact, r, a, b);
  }
}
