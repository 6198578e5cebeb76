/**
 The chat worker as a program: handlers that change tables statement by statement inside
 transactions that roll back, and consume(), which decides what the broker hears. Every
 method is tied to the functions of Authority that Delivery runs.
 */
module Worker {
  import opened Domain
  import opened Authority
  import D = Delivery
  import R = Rights

  /** How a transaction ended for its handler: committed, P2002, or a missing row. */
  datatype Fate = Done | Violated | Missing

  function FateOf(r: TxResult): Fate {
    match r
    case Committed(_) => Done
    case UniqueViolation => Violated
    case RowMissing => Missing
  }

  function After(db: Db, r: TxResult): Db {
    if r.Committed? then r.db else db
  }

  datatype Handled = Handled(outcome: Outcome, db: Db)

  /** One command handled without interruption. */
  function Handle(db: Db, cmd: Command, pick: Choice): Handled {
    match Check(db, cmd)
    case Refuse => Handled(Refused, db)
    case Ignore => Handled(Dropped, db)
    case Proceed(accepted) =>
      var r := Transact(db, cmd, accepted, pick);
      Handled(Settle(db, cmd, r), After(db, r))
  }

  // ---------- What a handler leaves behind, stated outright ----------

  /** The send is in its conversation, by this command or an earlier delivery of it. */
  ghost predicate StoredHere(db: Db, data: SendData) {
    exists id :: R.Holds(db, data.conversationId, id) && db.messages[id].clientMessageId == data.clientMessageId
  }

  /** A new message would violate one of the table's unique keys. */
  ghost predicate Collides(db: Db, m: Message) {
    || m.id in db.messages
    || (exists id :: id in db.messages && db.messages[id].clientMessageId == m.clientMessageId)
    || (exists id :: R.Holds(db, m.conversationId, id) && db.messages[id].sequence == m.sequence)
  }

  /** The next message of the conversation as asked, with its row and its event; or nothing at all. */
  ghost predicate Sent(a: Db, b: Db, u: UserId, t: SenderType, data: SendData, pick: Choice) {
    && data.conversationId in a.conversations
    && var c := a.conversations[data.conversationId];
       var m := Message(pick.newId, data.clientMessageId, data.conversationId, u, t, c.lastSequence + 1, data.kind,
                        data.content, data.replyToId, pick.now, false, false);
       b == if Collides(a, m) then a else a.(
         conversations := a.conversations[data.conversationId := c.(lastSequence := c.lastSequence + 1)],
         messages := a.messages[pick.newId := m],
         outbox := a.outbox + [MessageCreated(m)])
  }

  /** One watermark stands at s, and the log tells every listed recipient, and nothing else. */
  ghost predicate Receipted(a: Db, b: Db, c: ConversationId, u: UserId, s: nat, order: seq<UserId>, read: bool) {
    && R.Belongs(a, u, c)
    && var m := a.conversations[c].members[u];
       var moved := if read then m.(lastRead := s) else m.(lastDelivered := s);
       var conversation := a.conversations[c].(members := a.conversations[c].members[u := moved]);
       && b == a.(conversations := a.conversations[c := conversation], outbox := b.outbox)
       && |b.outbox| == |a.outbox| + |order| && b.outbox[..|a.outbox|] == a.outbox
       && forall i | 0 <= i < |order| ::
            b.outbox[|a.outbox| + i] == if read then ReceiptRead(c, u, s, order[i])
                                        else ReceiptDelivered(c, u, s, order[i])
  }

  class Store {
    var conversations: map<ConversationId, Conversation>
    var messages: map<MessageId, Message>
    var reactions: map<ReactionKey, ConversationId>
    var bots: map<UserId, bool>
    var outbox: seq<Event>

    function State(): Db
      reads this
    {
      Db(conversations, messages, reactions, bots, outbox)
    }

    constructor (db: Db)
      ensures State() == db
    {
      conversations, messages, reactions := db.conversations, db.messages, db.reactions;
      bots, outbox := db.bots, db.outbox;
    }

    // ---------- Transactions ----------

    /** A duplicate aborts after the sequence was bumped; the rollback takes the bump back. */
    method InsertMessage(sender: UserId, senderType: SenderType, data: SendData, pick: Choice) returns (fate: Fate)
      modifies this
      ensures fate == FateOf(TxSend(old(State()), sender, senderType, data, pick))
      ensures State() == After(old(State()), TxSend(old(State()), sender, senderType, data, pick))
    {
      var begun := conversations;
      var c := data.conversationId;
      if c !in conversations {
        return Missing;
      }
      var sequence := conversations[c].lastSequence + 1;
      conversations := conversations[c := conversations[c].(lastSequence := sequence)];
      if pick.newId in messages || ClientIdTaken(State(), data.clientMessageId) || SlotTaken(State(), c, sequence) {
        conversations := begun;
        return Violated;
      }
      var m := NewMessage(sender, senderType, data, sequence, pick);
      messages := messages[m.id := m];
      outbox := outbox + [MessageCreated(m)];
      return Done;
    }

    method FanOut(order: seq<UserId>, c: ConversationId, u: UserId, s: nat, read: bool)
      modifies this`outbox
      ensures outbox == old(outbox) + Fanout(order, c, u, s, read)
    {
      for i := 0 to |order|
        invariant outbox == old(outbox) + Fanout(order[..i], c, u, s, read)
      {
        var event := if read then ReceiptRead(c, u, s, order[i]) else ReceiptDelivered(c, u, s, order[i]);
        assert Fanout(order[..i + 1], c, u, s, read) == Fanout(order[..i], c, u, s, read) + [event];
        outbox := outbox + [event];
      }
      assert order[..|order|] == order;
    }

    /** UPDATE ... WHERE watermark < accepted, then one outbox row per recipient. */
    method AdvanceWatermark(u: UserId, c: ConversationId, accepted: nat, order: seq<UserId>, read: bool)
      modifies this
      ensures Committed(State()) == TxReceipt(old(State()), u, c, accepted, order, read)
    {
      if IsMember(State(), c, u) {
        var m := conversations[c].members[u];
        if read && m.lastRead < accepted {
          conversations := SetMember(State(), c, u, m.(lastRead := accepted));
          FanOut(order, c, u, accepted, read);
        } else if !read && m.lastDelivered < accepted {
          conversations := SetMember(State(), c, u, m.(lastDelivered := accepted));
          FanOut(order, c, u, accepted, read);
        }
      }
    }

    // ---------- Handlers ----------
    //
    // Each handler is Handle, which the run results are about; what it answers and writes is also
    // stated outright, in terms of the tables.

    method HandleMessageSend(actor: Option<UserId>, data: SendData, pick: Choice) returns (outcome: Outcome)
      modifies this
      ensures Handled(outcome, State()) == Handle(old(State()), Send(actor, data), pick)
      ensures outcome == Refused <==> !R.Permitted(old(State()), Send(actor, data))
      ensures outcome == Refused ==> State() == old(State())
      ensures outcome != Refused ==>
        Sent(old(State()), State(), actor.value, UserSender, data, pick)
        && (outcome == Accepted <==> StoredHere(State(), data))
    {
      if actor.None? || !IsMember(State(), data.conversationId, actor.value) {
        return Refused;
      }
      if conversations[data.conversationId].deleted {
        return Refused;
      }
      if data.replyToId.Some? {
        if data.replyToId.value !in messages || messages[data.replyToId.value].conversationId != data.conversationId {
          return Refused;
        }
      }
      var fate := InsertMessage(actor.value, UserSender, data, pick);
      match fate {
        case Done =>
          assert R.Holds(State(), data.conversationId, pick.newId);
          return Accepted;
        case Violated => return if OwnedHere(State(), data) then Accepted else Redeliver;
        case Missing => return Refused;
      }
    }

    method HandleBotSend(botId: UserId, data: SendData, pick: Choice) returns (outcome: Outcome)
      modifies this
      ensures Handled(outcome, State()) == Handle(old(State()), BotSend(botId, data), pick)
      ensures outcome == Dropped <==> !R.Permitted(old(State()), BotSend(botId, data))
      ensures outcome == Dropped ==> State() == old(State())
      ensures outcome != Dropped ==>
        outcome == Accepted && Sent(old(State()), State(), botId, BotSender, data, pick)
    {
      if botId !in bots || !bots[botId] || !IsMember(State(), data.conversationId, botId) {
        return Dropped;
      }
      if data.replyToId.Some? {
        if data.replyToId.value !in messages || messages[data.replyToId.value].conversationId != data.conversationId {
          return Dropped;
        }
      }
      var fate := InsertMessage(botId, BotSender, data, pick);
      return if fate == Missing then Redeliver else Accepted;
    }

    method HandleMessageEdit(actor: Option<UserId>, c: ConversationId, id: MessageId, content: string, pick: Choice)
      returns (outcome: Outcome)
      modifies this
      ensures Handled(outcome, State()) == Handle(old(State()), Edit(actor, c, id, content), pick)
      ensures outcome == if R.Permitted(old(State()), Edit(actor, c, id, content)) then Accepted else Dropped
      ensures outcome == Dropped ==> State() == old(State())
      ensures outcome == Accepted ==> State() == old(State()).(
        messages := old(messages)[id := old(messages)[id].(content := content, edited := true)],
        outbox := old(outbox) + [MessageEdited(c, id, content)])
    {
      if actor.None? || id !in messages || messages[id].conversationId != c {
        return Dropped;
      }
      var m := messages[id];
      if m.senderId != actor.value || m.senderType != UserSender || m.deleted {
        return Dropped;
      }
      messages := messages[id := m.(content := content, edited := true)];
      outbox := outbox + [MessageEdited(c, id, content)];
      return Accepted;
    }

    method HandleMessageDelete(actor: Option<UserId>, c: ConversationId, id: MessageId,
        pick: Choice) returns (outcome: Outcome)
      modifies this
      ensures Handled(outcome, State()) == Handle(old(State()), Delete(actor, c, id), pick)
      ensures outcome == if R.Permitted(old(State()), Delete(actor, c, id)) then Accepted else Dropped
      ensures outcome == Dropped ==> State() == old(State())
      ensures outcome == Accepted ==> State() == old(State()).(
        messages := old(messages)[id := old(messages)[id].(content := "", deleted := true)],
        outbox := old(outbox) + [MessageDeleted(c, id)])
    {
      if actor.None? || id !in messages || messages[id].conversationId != c {
        return Dropped;
      }
      var m := messages[id];
      var isAuthor := m.senderId == actor.value && m.senderType == UserSender;
      var isAdmin := IsMember(State(), c, actor.value) && conversations[c].members[actor.value].role == Admin;
      if !isAuthor && !isAdmin {
        return Dropped;
      }
      if m.deleted {
        return Dropped;
      }
      messages := messages[id := m.(content := "", deleted := true)];
      outbox := outbox + [MessageDeleted(c, id)];
      return Accepted;
    }

    method HandleReactionAdd(actor: Option<UserId>, c: ConversationId, id: MessageId, emoji: Emoji, pick: Choice)
      returns (outcome: Outcome)
      modifies this
      ensures Handled(outcome, State()) == Handle(old(State()), AddReaction(actor, c, id, emoji), pick)
      ensures outcome == if R.Permitted(old(State()), AddReaction(actor, c, id, emoji)) then Accepted else Dropped
      ensures outcome == Dropped ==> State() == old(State())
      ensures outcome == Accepted ==>
        var key := ReactionKey(id, Reaction(emoji, actor.value));
        State() == if key in old(reactions) then old(State()) else old(State()).(
          reactions := old(reactions)[key := c], outbox := old(outbox) + [ReactionAdded(c, id, key.reaction)])
    {
      if actor.None? || id !in messages || messages[id].conversationId != c || messages[id].deleted {
        return Dropped;
      }
      if !IsMember(State(), c, actor.value) {
        return Dropped;
      }
      var key := ReactionKey(id, Reaction(emoji, actor.value));
      if key !in reactions {
        reactions := reactions[key := c];
        outbox := outbox + [ReactionAdded(c, id, key.reaction)];
      }
      return Accepted;
    }

    method HandleReactionRemove(actor: Option<UserId>, c: ConversationId, id: MessageId, emoji: Emoji, pick: Choice)
      returns (outcome: Outcome)
      modifies this
      ensures Handled(outcome, State()) == Handle(old(State()), RemoveReaction(actor, c, id, emoji), pick)
      ensures outcome == if R.Permitted(old(State()), RemoveReaction(actor, c, id, emoji)) then Accepted else Dropped
      ensures outcome == Dropped ==> State() == old(State())
      ensures outcome == Accepted ==>
        var key := ReactionKey(id, Reaction(emoji, actor.value));
        State() == if key !in old(reactions) || old(reactions)[key] != c then old(State()) else old(State()).(
          reactions := old(reactions) - {key}, outbox := old(outbox) + [ReactionRemoved(c, id, key.reaction)])
    {
      if actor.None? || !IsMember(State(), c, actor.value) {
        return Dropped;
      }
      var key := ReactionKey(id, Reaction(emoji, actor.value));
      if key in reactions && reactions[key] == c {
        reactions := reactions - {key};
        outbox := outbox + [ReactionRemoved(c, id, key.reaction)];
      }
      return Accepted;
    }

    /** receipt.read and receipt.delivered: clamp, compare, advance conditionally, fan out. */
    method HandleReceipt(actor: Option<UserId>, c: ConversationId, sequence: nat, read: bool,
        pick: Choice) returns (outcome: Outcome)
      modifies this
      ensures Handled(outcome, State())
           == Handle(old(State()),
                     if read then MarkRead(actor, c, sequence) else MarkDelivered(actor, c, sequence), pick)
      ensures var cmd := if read then MarkRead(actor, c, sequence) else MarkDelivered(actor, c, sequence);
        outcome == if R.Permitted(old(State()), cmd) && R.Forward(old(State()), cmd) then Accepted else Dropped
      ensures outcome == Dropped ==> State() == old(State())
      ensures outcome == Accepted ==>
        Receipted(old(State()), State(), c, actor.value, R.Granted(old(State()), c, sequence), pick.order, read)
    {
      if actor.None? || !IsMember(State(), c, actor.value) {
        return Dropped;
      }
      var m := conversations[c].members[actor.value];
      var accepted: nat := Min(sequence, conversations[c].lastSequence);
      if accepted <= (if read then m.lastRead else m.lastDelivered) {
        return Dropped;
      }
      AdvanceWatermark(actor.value, c, accepted, pick.order, read);
      return Accepted;
    }

    method Dispatch(cmd: Command, pick: Choice) returns (outcome: Outcome)
      modifies this
      ensures Handled(outcome, State()) == Handle(old(State()), cmd, pick)
    {
      match cmd {
        case Send(actor, data) => outcome := HandleMessageSend(actor, data, pick);
        case BotSend(botId, data) => outcome := HandleBotSend(botId, data, pick);
        case Edit(actor, c, id, content) => outcome := HandleMessageEdit(actor, c, id, content, pick);
        case Delete(actor, c, id) => outcome := HandleMessageDelete(actor, c, id, pick);
        case AddReaction(actor, c, id, emoji) => outcome := HandleReactionAdd(actor, c, id, emoji, pick);
        case RemoveReaction(actor, c, id, emoji) => outcome := HandleReactionRemove(actor, c, id, emoji, pick);
        case MarkRead(actor, c, s) => outcome := HandleReceipt(actor, c, s, true, pick);
        case MarkDelivered(actor, c, s) => outcome := HandleReceipt(actor, c, s, false, pick);
      }
    }
  }

  /** A delivered payload: a command, or bytes that do not parse, name no handler or fail the schema. */
  datatype Payload = Parsed(cmd: Command) | Poison

  class ChatWorker {
    const store: Store
    var processing: nat
    var stopped: bool
    var nackedOnStop: nat

    constructor (store: Store)
      ensures this.store == store && processing == 0 && !stopped && nackedOnStop == 0
    {
      this.store := store;
      processing, stopped, nackedOnStop := 0, false, 0;
    }

    method Stop()
      modifies this
      ensures stopped && processing == old(processing) && nackedOnStop == old(nackedOnStop)
    {
      stopped := true;
    }

    /** `acked` says whether the call resolves, which sends the PUBACK. */
    method Consume(payload: Payload, pick: Choice) returns (acked: bool)
      modifies this, store
      ensures stopped == old(stopped) && processing == old(processing)
      ensures old(stopped) ==> !acked && nackedOnStop == old(nackedOnStop) + 1 && store.State() == old(store.State())
      ensures !old(stopped) ==> nackedOnStop == old(nackedOnStop)
      ensures !old(stopped) && payload.Poison? ==> acked && store.State() == old(store.State())
      ensures !old(stopped) && payload.Parsed? ==>
        var h := Handle(old(store.State()), payload.cmd, pick);
        store.State() == h.db && (acked <==> h.outcome != Redeliver)
    {
      if stopped {
        nackedOnStop := nackedOnStop + 1;
        return false;
      }
      if payload.Poison? {
        return true;
      }
      processing := processing + 1;
      var outcome := store.Dispatch(payload.cmd, pick);
      processing := processing - 1;
      return outcome != Redeliver;
    }
  }

  // ---------- What the handlers promise together ----------

  /** Handling a received command is one path through the interleaved steps of Delivery. */
  lemma HandleIsTwoSteps(w: D.World, t: nat, pick: Choice)
    requires t in w.tasks && w.tasks[t].stage.Received? && D.PickOk(w.db, w.tasks[t].cmd, pick)
    ensures var h := Handle(w.db, w.tasks[t].cmd, pick);
      var v := D.Next(D.Next(w, D.RunCheck(t)), D.RunTransaction(t, pick));
      v == w.(db := h.db, tasks := w.tasks[t := D.Task(w.tasks[t].cmd, D.Settled(h.outcome))])
  {
  }

  /**
   Redelivery is harmless: handling a settled command again at once leaves every table as it
   is, and the outbox too unless the command is an edit, whose event is repeated verbatim.
   */
  lemma {:induction false} RedeliveryHarmless(db: Db, cmd: Command, pick: Choice, again: Choice)
    requires D.Sound(db) && D.PickOk(db, cmd, pick)
    ensures var once := Handle(db, cmd, pick).db; var twice := Handle(once, cmd, again).db;
      if cmd.Edit? && once != db
      then twice == once.(outbox := once.outbox + [MessageEdited(cmd.conversationId, cmd.messageId, cmd.content)])
      else twice == once
  {
    if cmd.Send? {
      if Check(db, cmd).Proceed? { SendTwice(db, cmd.actor.value, UserSender, cmd.data, pick, again); }
    } else if cmd.BotSend? {
      if Check(db, cmd).Proceed? { SendTwice(db, cmd.botId, BotSender, cmd.data, pick, again); }
    } else {
      RowsTwice(db, cmd, pick, again, Handle(db, cmd, pick).db);
    }
  }

  lemma {:induction false} SendTwice(db: Db, u: UserId, t: SenderType, data: SendData, pick: Choice, again: Choice)
    requires D.Sound(db) && pick.newId !in db.messages && data.conversationId in db.conversations
    ensures TxSend(After(db, TxSend(db, u, t, data, pick)), u, t, data, again) == UniqueViolation
  {
    var once := After(db, TxSend(db, u, t, data, pick));
    D.SequenceIndexNeverFires(db, u, t, data, pick);
    if once != db {
      assert once.messages[pick.newId].clientMessageId == data.clientMessageId;
    }
  }

  lemma RowsTwice(db: Db, cmd: Command, pick: Choice, again: Choice, once: Db)
    requires !cmd.Send? && !cmd.BotSend? && once == Handle(db, cmd, pick).db
    ensures var twice := Handle(once, cmd, again).db;
      if cmd.Edit? && once != db
      then twice == once.(outbox := once.outbox + [MessageEdited(cmd.conversationId, cmd.messageId, cmd.content)])
      else twice == once
  {
  }
}
