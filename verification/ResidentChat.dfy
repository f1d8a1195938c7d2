/** The resident chat (src/app/daemon.c, src/geistd.c, src/app/observe.c), proved equal to a fresh one. */
module ResidentChat {

  // The app remembers what the daemon's chat holds, rewinds to the common start and sends only the rest.
  // The environment is a script.

  const CHAT_MESSAGES := 64
  const ATTEMPTS := 2

  datatype Msg = Msg(role: string, content: string)

  /** The sampling options a chat is opened with. */
  datatype Options = Options(temperature: real, topP: real, format: string)

  datatype Chat = Chat(options: Options, msgs: seq<Msg>)

  /** What one generation was asked: the whole conversation as the model sees it. */
  datatype Question = Question(options: Options, max: nat, msgs: seq<Msg>)

  /** Socket paths and chat ids are never used twice; 0 is no chat. */
  datatype Daemon = Daemon(path: nat, chats: map<nat, Chat>, nextId: nat, asked: seq<Question>)

  datatype Held = Held(id: nat, path: nat, options: Options, msgs: seq<Msg>)

  datatype State = State(held: Held, daemon: Daemon)

  datatype Request = Request(options: Options, max: nat, messages: seq<Msg>)

  datatype Finish = Stop | Length | Context | Client | Other

  /** A broken call leaves the daemon's chats in a state the app cannot know. */
  datatype Reply = Done | Broken(left: map<nat, Chat>)

  datatype SendReply =
    | Answered(answer: string, said: string, finish: Finish)
    | Refused(context: bool)
    | SendBroken(left: map<nat, Chat>)

  /** The environment in one attempt; `lost*` are the chats evicted before the call. */
  datatype Script = Script(closes: bool, opens: bool, lostByOpen: set<nat>, lostByRewind: set<nat>, rewind: Reply,
                           lostBySend: set<nat>, send: SendReply)

  /** The handshake in front of the attempts. */
  datatype Contact = Unreachable | NoChatFormat | Ready

  /** 0, 400, 499, and 502 with the codes it may still become (499, 504). */
  datatype Outcome = Success(answer: string) | Declined | Cancelled | Failed

  datatype Result = Again | Over(outcome: Outcome)

  // ------------------------------------------------------------------ messages

  datatype Speaker = System | Assistant | User

  /** Any other role counts as user. */
  function SpeakerOf(role: string): Speaker {
    if role == "system" then System else if role == "assistant" then Assistant else User
  }

  predicate Same(a: Msg, b: Msg) {
    SpeakerOf(a.role) == SpeakerOf(b.role) && a.content == b.content
  }

  /** Equal for the model. */
  ghost predicate Alike(a: seq<Msg>, b: seq<Msg>) {
    |a| == |b| && forall i :: 0 <= i < |a| ==> Same(a[i], b[i])
  }

  /** The common start of what is held and what is asked; at least the last message is sent. */
  function Common(held: seq<Msg>, messages: seq<Msg>, from: nat): (keep: nat)
    requires from <= |held| && from < |messages|
    ensures from <= keep <= |held| && keep < |messages|
    decreases |held| - from
  {
    if from < |held| && from + 1 < |messages| && Same(held[from], messages[from]) then Common(held, messages, from + 1) else from
  }

  // ------------------------------------------------------------------ one attempt

  predicate Fits(s: State, r: Request) {
    s.held.id != 0 && s.held.path == s.daemon.path && s.held.options == r.options
  }

  /** The held chat is closed and another opened; an evicted chat makes room. */
  function Opened(s: State, r: Request, e: Script): State {
    var closing := s.held.id != 0 && s.held.path == s.daemon.path && e.closes;
    var chats := if closing then s.daemon.chats - {s.held.id} else s.daemon.chats;
    if !e.opens then State(s.held.(id := 0, msgs := []), s.daemon.(chats := chats))
    else
      var id := s.daemon.nextId;
      State(Held(id, s.daemon.path, r.options, []),
            s.daemon.(chats := (chats - e.lostByOpen)[id := Chat(r.options, [])], nextId := id + 1))
  }

  function Rewound(d: Daemon, id: nat, keep: nat): Daemon
    requires id in d.chats && keep <= |d.chats[id].msgs|
  {
    d.(chats := d.chats[id := d.chats[id].(msgs := d.chats[id].msgs[..keep])])
  }

  function Lose(d: Daemon, ids: set<nat>): Daemon {
    d.(chats := d.chats - ids)
  }

  /** The send, after the rewind. */
  function Send(s: State, r: Request, keep: nat, e: Script): (State, Result)
    requires keep < |r.messages|
  {
    var d := Lose(s.daemon, e.lostBySend);
    var id := s.held.id;
    match e.send
    case SendBroken(left) => (s.(daemon := d.(chats := left)), Over(Failed))
    case Refused(context) =>
      if id !in d.chats then (State(s.held.(id := 0), d), Again)
      else (s.(daemon := d), Over(if context then Declined else Failed))
    case Answered(answer, said, finish) =>
      if id !in d.chats then (State(s.held.(id := 0), d), Again)
      else
        var asked := d.chats[id].msgs + r.messages[keep..];
        var told := if finish == Client then said else answer;
        var chat := d.chats[id].(msgs := asked + [Msg("assistant", told)]);
        var held := s.held.(msgs := s.held.msgs + r.messages[keep..] + [Msg("assistant", answer)]);
        (State(held, d.(chats := d.chats[id := chat], asked := d.asked + [Question(chat.options, r.max, asked)])),
         Over(if finish == Client then Cancelled else if finish == Other then Failed else Success(answer)))
  }

  /** The rewind when the chat holds more than the common start. */
  function Rewind(s: State, r: Request, keep: nat, e: Script): (State, Result)
    requires keep <= |s.held.msgs| && keep < |r.messages|
  {
    var kept := s.held.(msgs := s.held.msgs[..keep]);
    if keep == |s.held.msgs| then Send(s, r, keep, e)
    else
      var d := Lose(s.daemon, e.lostByRewind);
      if e.rewind.Broken? then (s.(daemon := d.(chats := e.rewind.left)), Over(Failed))
      else if s.held.id !in d.chats then (State(s.held.(id := 0), d), Again)
      else if keep > |d.chats[s.held.id].msgs| then (s.(daemon := d), Over(Failed))
      else Send(State(kept, Rewound(d, s.held.id, keep)), r, keep, e)
  }

  function Attempt(s: State, r: Request, e: Script): (State, Result)
    requires 0 < |r.messages|
  {
    var t := if Fits(s, r) then s else Opened(s, r, e);
    if t.held.id == 0 then (t, Over(Failed)) else Rewind(t, r, Common(t.held.msgs, r.messages, 0), e)
  }

  /** A chat the daemon no longer knows is forgotten and tried again. */
  function Attempts(s: State, r: Request, es: seq<Script>): (State, Outcome)
    requires 0 < |r.messages|
    decreases |es|
  {
    if es == [] then (s, Failed)
    else
      var (t, result) := Attempt(s, r, es[0]);
      if result.Over? then (t, result.outcome) else Attempts(t, r, es[1..])
  }

  function Ask(s: State, contact: Contact, r: Request, es: seq<Script>): (State, Outcome) {
    if contact == Unreachable || r.messages == [] || |r.messages| > CHAT_MESSAGES then (s, Failed)
    else if contact == NoChatFormat then (s, Declined)
    else if r.max > 4095 then (s, Failed)
    else Attempts(s, r, es)
  }

  /** A new child: another socket path and no chat. */
  function Replaced(d: Daemon): Daemon {
    d.(path := d.path + 1, chats := map[])
  }

  /** app_daemon_chat followed by observation_end; `gone` when the client went away meanwhile. */
  function Served(s: State, contact: Contact, r: Request, es: seq<Script>, gone: bool): (State, Outcome) {
    var (t, outcome) := Ask(s, contact, r, es);
    if gone || outcome.Cancelled? || outcome.Failed? then (t.(daemon := Replaced(t.daemon)), outcome) else (t, outcome)
  }

  // ------------------------------------------------------------------ runs

  datatype Event =
    | Serve(contact: Contact, request: Request, first: Script, second: Script, gone: bool)
    | Restart
    | Evict(ids: set<nat>)

  function Step(s: State, e: Event): State {
    match e
    case Serve(contact, r, first, second, gone) => Served(s, contact, r, [first, second], gone).0
    case Restart => s.(daemon := Replaced(s.daemon))
    case Evict(ids) => s.(daemon := Lose(s.daemon, ids))
  }

  function Run(s: State, es: seq<Event>): State
    decreases |es|
  {
    if es == [] then s else Run(Step(s, es[0]), es[1..])
  }

  const INIT := State(Held(0, 0, Options(0.0, 0.0, ""), []), Daemon(1, map[], 1, []))

  // ------------------------------------------------------------------ the invariant

  /** Whenever the held id names a live chat, the app knows what that chat holds and how it was opened. */
  ghost predicate Knows(s: State) {
    s.held.id != 0 && s.held.id in s.daemon.chats ==>
      var chat := s.daemon.chats[s.held.id];
      s.held.path == s.daemon.path && chat.options == s.held.options && Alike(s.held.msgs, chat.msgs)
  }

  ghost predicate Fresh(s: State) {
    && s.held.id < s.daemon.nextId
    && forall id :: id in s.daemon.chats ==> id < s.daemon.nextId
  }

  ghost predicate Inv(s: State) {
    Knows(s) && Fresh(s) && |s.held.msgs| <= CHAT_MESSAGES + 1
  }

  lemma {:induction false} CommonAlike(held: seq<Msg>, messages: seq<Msg>, from: nat)
    requires from <= |held| && from < |messages|
    requires Alike(held[..from], messages[..from])
    ensures var keep := Common(held, messages, from); Alike(held[..keep], messages[..keep])
    decreases |held| - from
  {
    if from < |held| && from + 1 < |messages| && Same(held[from], messages[from]) {
      assert held[..from + 1] == held[..from] + [held[from]] && messages[..from + 1] == messages[..from] + [messages[from]];
      CommonAlike(held, messages, from + 1);
    }
  }

  lemma {:induction false} CommonLongest(held: seq<Msg>, messages: seq<Msg>, from: nat, k: nat)
    requires from <= |held| && from < |messages|
    requires from <= k <= |held| && k < |messages| && Alike(held[..k], messages[..k])
    ensures k <= Common(held, messages, from)
    decreases |held| - from
  {
    if from < k {
      assert held[..k][from] == held[from] && messages[..k][from] == messages[from];
      CommonLongest(held, messages, from + 1, k);
    }
  }

  /** What one generation was asked is, for the model, the whole request. */
  ghost predicate Answers(q: Question, r: Request) {
    q.options == r.options && q.max == r.max && Alike(q.msgs, r.messages)
  }

  /** What the app holds after an answer. */
  ghost predicate Holds(s: State, r: Request, answer: string) {
    Alike(s.held.msgs, r.messages + [Msg("assistant", answer)])
  }

  /** What a call does to the invariant, the questions and the bound, by its outcome. */
  ghost predicate Kept(s: State, t: State, r: Request, outcome: Outcome) {
    && t.held.id < t.daemon.nextId
    && |t.held.msgs| <= CHAT_MESSAGES + 1
    && s.daemon.asked <= t.daemon.asked
    && |t.daemon.asked| <= |s.daemon.asked| + 1
    && (outcome.Success? || outcome.Declined? ==> Inv(t))
    && (outcome.Success? ==>
          && |t.daemon.asked| == |s.daemon.asked| + 1
          && Answers(t.daemon.asked[|s.daemon.asked|], r)
          && Holds(t, r, outcome.answer)
          && t.held.id in t.daemon.chats)
    && (outcome.Declined? ==> t.daemon.asked == s.daemon.asked)
  }

  ghost predicate KeptResult(s: State, t: State, r: Request, result: Result) {
    match result
    case Over(outcome) => Kept(s, t, r, outcome)
    case Again => Inv(t) && t.daemon.asked == s.daemon.asked
  }

  lemma SendKeeps(s: State, r: Request, keep: nat, e: Script)
    requires Inv(s) && s.held.id != 0 && s.held.options == r.options
    requires keep < |r.messages| <= CHAT_MESSAGES && |s.held.msgs| == keep && Alike(s.held.msgs, r.messages[..keep])
    ensures var (t, result) := Send(s, r, keep, e); KeptResult(s, t, r, result)
  {
    var d := Lose(s.daemon, e.lostBySend);
    if e.send.Answered? && s.held.id in d.chats {
      var chat := d.chats[s.held.id];
      assert r.messages == r.messages[..keep] + r.messages[keep..];
      assert Alike(chat.msgs + r.messages[keep..], r.messages);
      assert Alike(s.held.msgs + r.messages[keep..], r.messages);
    }
  }

  lemma RewindKeeps(s: State, r: Request, keep: nat, e: Script)
    requires Inv(s) && s.held.id != 0 && s.held.options == r.options
    requires keep < |r.messages| <= CHAT_MESSAGES && keep <= |s.held.msgs| && Alike(s.held.msgs[..keep], r.messages[..keep])
    ensures var (t, result) := Rewind(s, r, keep, e); KeptResult(s, t, r, result)
  {
    if keep == |s.held.msgs| {
      assert s.held.msgs[..keep] == s.held.msgs;
      SendKeeps(s, r, keep, e);
    } else {
      var d := Lose(s.daemon, e.lostByRewind);
      if e.rewind.Done? && s.held.id in d.chats {
        SendKeeps(State(s.held.(msgs := s.held.msgs[..keep]), Rewound(d, s.held.id, keep)), r, keep, e);
      }
    }
  }

  lemma AttemptKeeps(s: State, r: Request, e: Script)
    requires Inv(s) && 0 < |r.messages| <= CHAT_MESSAGES
    ensures var (t, result) := Attempt(s, r, e); KeptResult(s, t, r, result)
  {
    var t := if Fits(s, r) then s else Opened(s, r, e);
    if t.held.id != 0 {
      CommonAlike(t.held.msgs, r.messages, 0);
      RewindKeeps(t, r, Common(t.held.msgs, r.messages, 0), e);
    }
  }

  lemma {:induction false} AttemptsKeep(s: State, r: Request, es: seq<Script>)
    requires Inv(s) && 0 < |r.messages| <= CHAT_MESSAGES
    ensures var (t, outcome) := Attempts(s, r, es); Kept(s, t, r, outcome)
    decreases |es|
  {
    if es != [] {
      AttemptKeeps(s, r, es[0]);
      var (t, result) := Attempt(s, r, es[0]);
      if result == Again {
        AttemptsKeep(t, r, es[1..]);
      }
    }
  }

  lemma StepKeeps(s: State, e: Event)
    requires Inv(s)
    ensures Inv(Step(s, e))
  {
    if e.Serve? && 0 < |e.request.messages| <= CHAT_MESSAGES {
      AttemptsKeep(s, e.request, [e.first, e.second]);
    }
  }

  lemma {:induction false} RunKeeps(s: State, es: seq<Event>)
    requires Inv(s)
    ensures Inv(Run(s, es))
    decreases |es|
  {
    if es != [] {
      StepKeeps(s, es[0]);
      RunKeeps(Step(s, es[0]), es[1..]);
    }
  }

  /**
   Behind any run, whatever the network and the daemon do: an answer is the answer to the whole request,
   under the requested options, and the model was asked once.
   */
  lemma AnswersWholeRequest(es: seq<Event>, contact: Contact, r: Request, a: Script, b: Script)
    ensures var s := Run(INIT, es);
      var (t, outcome) := Ask(s, contact, r, [a, b]);
      && |t.daemon.asked| <= |s.daemon.asked| + 1
      && (outcome.Success? ==>
            && |t.daemon.asked| == |s.daemon.asked| + 1
            && Answers(t.daemon.asked[|s.daemon.asked|], r)
            && Holds(t, r, outcome.answer))
  {
    RunKeeps(INIT, es);
    var s := Run(INIT, es);
    if 0 < |r.messages| <= CHAT_MESSAGES {
      AttemptsKeep(s, r, [a, b]);
    }
  }

  /** The daemon and the network do their work; chats may still have been lost. */
  predicate Works(e: Script) {
    e.opens && e.rewind.Done? && e.send.Answered? && e.send.finish != Client && e.send.finish != Other
  }

  predicate Loses(e: Script) {
    e.lostByOpen != {} || e.lostByRewind != {} || e.lostBySend != {}
  }

  /** A chat lost before or within the first attempt is opened again: one retry is enough. */
  lemma SurvivesLoss(s: State, contact: Contact, r: Request, a: Script, b: Script)
    requires Inv(s) && contact == Ready && 0 < |r.messages| <= CHAT_MESSAGES && r.max <= 4095
    requires Works(a) && Works(b) && !Loses(b)
    ensures Ask(s, contact, r, [a, b]).1.Success?
  {
    var (t, result) := Attempt(s, r, a);
    assert [a, b][1..] == [b];
    if result == Again {
      SecondAttempt(t, r, b);
      assert Attempts(t, r, [b]) == (Attempt(t, r, b).0, Attempt(t, r, b).1.outcome);
    }
  }

  lemma SecondAttempt(s: State, r: Request, b: Script)
    requires s.held.id == 0 && s.daemon.nextId != 0 && 0 < |r.messages| && Works(b) && !Loses(b)
    ensures Attempt(s, r, b).1 == Over(Success(b.send.answer))
    ensures Attempt(s, r, b).0.daemon.asked == s.daemon.asked + [Question(r.options, r.max, r.messages)]
  {
    var t := Opened(s, r, b);
    assert Common(t.held.msgs, r.messages, 0) == 0;
    assert Lose(t.daemon, {}).chats == t.daemon.chats;
    assert [] + r.messages[0..] == r.messages;
  }

  /** Without a chat everything is sent to a fresh one: what every other answer is alike to. */
  lemma FreshAsksEverything(s: State, r: Request, a: Script, b: Script)
    requires s.held.id == 0 && s.daemon.nextId != 0 && 0 < |r.messages| <= CHAT_MESSAGES && r.max <= 4095
    requires Works(a) && !Loses(a)
    ensures var (t, outcome) := Ask(s, Ready, r, [a, b]);
      outcome == Success(a.send.answer)
      && t.daemon.asked == s.daemon.asked + [Question(r.options, r.max, r.messages)]
  {
    SecondAttempt(s, r, a);
  }

  /** A conversation that goes on where the held chat ends sends its new messages only, and rewinds nothing. */
  lemma ContinuesWithRest(s: State, r: Request, more: seq<Msg>)
    requires Inv(s) && more != [] && r.messages == s.held.msgs + more
    ensures Common(s.held.msgs, r.messages, 0) == |s.held.msgs|
  {
    assert r.messages[..|s.held.msgs|] == s.held.msgs[..|s.held.msgs|];
    CommonLongest(s.held.msgs, r.messages, 0, |s.held.msgs|);
  }

  /** Why a cancelled request must not keep its child: the app then no longer knows what the chat holds. */
  lemma CancelledMustReplace(s: State, r: Request, a: Script, b: Script)
    requires s.held.id == 0 && s.daemon.nextId != 0 && 0 < |r.messages| <= CHAT_MESSAGES && r.max <= 4095
    requires a.opens && !Loses(a) && a.send.Answered? && a.send.finish == Client && a.send.said != a.send.answer
    ensures Ask(s, Ready, r, [a, b]).1 == Cancelled
    ensures !Knows(Ask(s, Ready, r, [a, b]).0)
    ensures Knows(Served(s, Ready, r, [a, b], false).0)
  {
    var t := Opened(s, r, a);
    assert Common(t.held.msgs, r.messages, 0) == 0;
    assert Lose(t.daemon, {}).chats == t.daemon.chats;
    var u := Send(t, r, 0, a).0;
    assert Ask(s, Ready, r, [a, b]) == (u, Cancelled);
    var last := |u.held.msgs| - 1;
    assert !Same(u.held.msgs[last], u.daemon.chats[u.held.id].msgs[last]);
  }
}
