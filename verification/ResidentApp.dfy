/**
 The resident chat as the program writes it: the static `held` of the app, the daemon's chat table, and the
 loop of two attempts, proved equal to the specification call by call.

 Sources: src/app/daemon.c and the chat operations of src/geistd.c. What the network and the daemon do in a call
 is handed in with the call, so the classes have the source's branches and loops, and the theorems about the
 specification speak about them.
 */
module ResidentApp {
  import opened ResidentChat

  /** geistd's chat table behind the socket; each call follows the environment's script. */
  class Server {
    var path: nat
    var chats: map<nat, Chat>
    var nextId: nat
    var asked: seq<Question>

    constructor ()
      ensures Abs() == INIT.daemon
    {
      path, chats, nextId, asked := 1, map[], 1, [];
    }

    function Abs(): Daemon
      reads this
    {
      Daemon(path, chats, nextId, asked)
    }

    method Close(id: nat, closes: bool)
      modifies `chats
      ensures chats == if closes then old(chats) - {id} else old(chats)
    {
      if closes {
        chats := chats - {id};
      }
    }

    /** op_chat_open: 0 when it fails. */
    method Open(options: Options, opens: bool, lost: set<nat>) returns (id: nat)
      modifies this
      ensures id == if opens then old(nextId) else 0
      ensures Abs() == if opens then old(Abs()).(chats := (old(chats) - lost)[id := Chat(options, [])], nextId := id + 1) else old(Abs())
    {
      if !opens {
        return 0;
      }
      chats := chats - lost;
      id := nextId;
      chats := chats[id := Chat(options, [])];
      nextId := nextId + 1;
    }

    /** chat_rewind: whether it succeeded, and otherwise whether the chat is unknown. */
    method RewindTo(id: nat, keep: nat, lost: set<nat>, reply: Reply) returns (ok: bool, unknown: bool)
      modifies `chats
      ensures var d := Lose(old(Abs()), lost);
        && ok == (reply.Done? && id in d.chats && keep <= |d.chats[id].msgs|)
        && unknown == (reply.Done? && id !in d.chats)
        && Abs() == if reply.Broken? then d.(chats := reply.left) else if ok then Rewound(d, id, keep) else d
    {
      chats := chats - lost;
      ok, unknown := false, false;
      if reply.Broken? {
        chats := reply.left;
      } else if id !in chats {
        unknown := true;
      } else if keep <= |chats[id].msgs| {
        chats := chats[id := chats[id].(msgs := chats[id].msgs[..keep])];
        ok := true;
      }
    }

    /** op_chat_send: a refused send leaves the chat as it was. */
    method Append(id: nat, max: nat, rest: seq<Msg>, lost: set<nat>, reply: SendReply) returns (unknown: bool)
      modifies `chats, `asked
      ensures var d := Lose(old(Abs()), lost);
        && unknown == (!reply.SendBroken? && id !in d.chats)
        && Abs() == if reply.SendBroken? then d.(chats := reply.left)
                    else if unknown || reply.Refused? then d
                    else
                      var question := d.chats[id].msgs + rest;
                      var told := if reply.finish == Client then reply.said else reply.answer;
                      d.(chats := d.chats[id := d.chats[id].(msgs := question + [Msg("assistant", told)])],
                         asked := d.asked + [Question(d.chats[id].options, max, question)])
    {
      chats := chats - lost;
      unknown := false;
      if reply.SendBroken? {
        chats := reply.left;
      } else if id !in chats {
        unknown := true;
      } else if reply.Answered? {
        var question := chats[id].msgs + rest;
        asked := asked + [Question(chats[id].options, max, question)];
        chats := chats[id := chats[id].(msgs := question + [Msg("assistant", if reply.finish == Client then reply.said else reply.answer)])];
      }
    }
  }

  /** A pointer of the held record: null, or a copied text. */
  datatype Slot = Null | Str(text: string)

  function Text(s: Slot): string {
    if s.Str? then s.text else ""
  }

  function Recorded(roles: seq<Slot>, contents: seq<Slot>): (msgs: seq<Msg>)
    requires |roles| == |contents|
    ensures |msgs| == |roles|
  {
    seq(|roles|, i requires 0 <= i < |roles| => Msg(Text(roles[i]), Text(contents[i])))
  }

  class App {
    // the static `held`
    var id: nat
    var path: nat
    var options: Options
    var n: nat
    const role: array<Slot>
    const content: array<Slot>
    const server: Server

    /** The first n slots own their texts, all others are null: nothing leaks and nothing is freed twice. */
    ghost predicate Valid()
      reads this, role, content
    {
      && role != content && role.Length == content.Length == CHAT_MESSAGES + 1 && n <= role.Length
      && (forall i :: 0 <= i < n ==> role[i].Str? && content[i].Str?)
      && (forall i :: n <= i < role.Length ==> role[i].Null? && content[i].Null?)
    }

    /** What the app believes the chat to hold. */
    ghost function Msgs(): (msgs: seq<Msg>)
      requires Valid()
      reads this, role, content
      ensures |msgs| == n
    {
      Recorded(role[..n], content[..n])
    }

    ghost function Abs(): State
      requires Valid()
      reads this, role, content, server
    {
      State(Held(id, path, options, Msgs()), server.Abs())
    }

    constructor (server: Server)
      ensures Valid() && this.server == server && id == 0 && Msgs() == [] && fresh(role) && fresh(content)
    {
      this.server := server;
      id, path, options, n := 0, 0, Options(0.0, 0.0, ""), 0;
      role := new Slot[CHAT_MESSAGES + 1](_ => Null);
      content := new Slot[CHAT_MESSAGES + 1](_ => Null);
    }

    /** held_keep: the texts behind the first ones are freed. */
    method HeldKeep(keep: nat)
      requires Valid()
      modifies `n, role, content
      ensures Valid()
      ensures Msgs() == if keep < old(n) then old(Msgs())[..keep] else old(Msgs())
    {
      var i := keep;
      while i < n
        modifies role, content
        invariant keep < n ==> keep <= i <= n
        invariant forall k :: 0 <= k < role.Length && !(keep <= k < i) ==> role[k] == old(role[k]) && content[k] == old(content[k])
        invariant forall k :: keep <= k < i && k < role.Length ==> role[k].Null? && content[k].Null?
      {
        role[i], content[i] := Null, Null;
        i := i + 1;
      }
      n := if keep < n then keep else n;
    }

    /** held_push: refused when every slot is taken. */
    method HeldPush(r: string, c: string) returns (ok: bool)
      requires Valid()
      modifies `n, role, content
      ensures Valid()
      ensures ok == (|old(Msgs())| <= CHAT_MESSAGES)
      ensures Msgs() == if ok then old(Msgs()) + [Msg(r, c)] else old(Msgs())
    {
      if n > CHAT_MESSAGES {
        return false;
      }
      role[n], content[n] := Str(r), Str(c);
      n := n + 1;
      return true;
    }

    /** The scan for the common start. */
    method CommonStart(messages: seq<Msg>) returns (keep: nat)
      requires Valid() && messages != []
      ensures keep == Common(Msgs(), messages, 0)
    {
      keep := 0;
      while keep < n && keep < |messages| - 1 && Same(Msg(role[keep].text, content[keep].text), messages[keep])
        invariant keep <= n && keep < |messages|
        invariant Common(Msgs(), messages, keep) == Common(Msgs(), messages, 0)
      {
        keep := keep + 1;
      }
    }

    /** The head of an attempt: the held chat is used when it fits, else another one is opened. */
    method Prepare(r: Request, e: Script)
      requires Valid() && 0 < server.nextId
      modifies this, role, content, server
      ensures Valid() && 0 < server.nextId
      ensures Abs() == if Fits(old(Abs()), r) then old(Abs()) else Opened(old(Abs()), r, e)
    {
      if id != 0 && path == server.path && options == r.options {
        return;
      }
      if id != 0 && path == server.path {
        server.Close(id, e.closes);
      }
      HeldKeep(0);
      id := server.Open(r.options, e.opens, e.lostByOpen);
      if id != 0 {
        path, options := server.path, r.options;
      }
    }

    /** The tail of an attempt, from the send on: no push is refused, so the chat is never forgotten for want of a slot. */
    method Transmit(r: Request, keep: nat, e: Script) returns (result: Result)
      requires Valid() && n <= keep < |r.messages| <= CHAT_MESSAGES
      modifies this, role, content, server
      ensures Valid() && server.nextId == old(server.nextId)
      ensures (Abs(), result) == Send(old(Abs()), r, keep, e)
    {
      var unknown := server.Append(id, r.max, r.messages[keep..], e.lostBySend, e.send);
      if unknown {
        id := 0;
        return Again;
      }
      match e.send
      case SendBroken(_) => return Over(Failed);
      case Refused(context) => return Over(if context then Declined else Failed);
      case Answered(answer, _, finish) =>
        ghost var before := Msgs();
        var i := keep;
        while i < |r.messages|
          modifies `n, role, content
          invariant keep <= i <= |r.messages| && Valid()
          invariant Msgs() == before + r.messages[keep..i]
        {
          assert r.messages[keep..i + 1] == r.messages[keep..i] + [r.messages[i]];
          var pushed := HeldPush(r.messages[i].role, r.messages[i].content);
          assert pushed;
          i := i + 1;
        }
        assert r.messages[keep..i] == r.messages[keep..];
        var pushed := HeldPush("assistant", answer);
        assert pushed;
        return Over(if finish == Client then Cancelled else if finish == Other then Failed else Success(answer));
    }

    /** One turn of the loop over the attempts. */
    method TryOnce(r: Request, e: Script) returns (result: Result)
      requires Valid() && 0 < |r.messages| <= CHAT_MESSAGES && 0 < server.nextId
      modifies this, role, content, server
      ensures Valid() && 0 < server.nextId
      ensures (Abs(), result) == Attempt(old(Abs()), r, e)
    {
      Prepare(r, e);
      if id == 0 {
        return Over(Failed);
      }
      var keep := CommonStart(r.messages);
      if keep < n {
        var ok, unknown := server.RewindTo(id, keep, e.lostByRewind, e.rewind);
        if unknown {
          id := 0;
          return Again;
        }
        if !ok {
          return Over(Failed);
        }
      }
      HeldKeep(keep);
      result := Transmit(r, keep, e);
    }

    /** app_daemon_chat. */
    method DaemonChat(contact: Contact, r: Request, es: seq<Script>) returns (outcome: Outcome)
      requires Valid() && |es| == ATTEMPTS && 0 < server.nextId
      modifies this, role, content, server
      ensures Valid()
      ensures (Abs(), outcome) == Ask(old(Abs()), contact, r, es)
    {
      if contact == Unreachable || |r.messages| == 0 || |r.messages| > CHAT_MESSAGES {
        return Failed;
      }
      if contact == NoChatFormat {
        return Declined;
      }
      if r.max > 4095 {
        return Failed;
      }
      var attempt := 0;
      while attempt < ATTEMPTS
        invariant attempt <= ATTEMPTS && Valid() && 0 < server.nextId
        invariant Attempts(Abs(), r, es[attempt..]) == Attempts(old(Abs()), r, es)
      {
        assert es[attempt..][1..] == es[attempt + 1..];
        var result := TryOnce(r, es[attempt]);
        if result.Over? {
          return result.outcome;
        }
        attempt := attempt + 1;
      }
      return Failed;
    }
  }
}
