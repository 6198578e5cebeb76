/**
 The other half of the question how far a cascade goes: an echoing table passes every bound,
 from a user's message in a database the worker can reach, although the cooldown of every
 rule is waited for; and each expired cooldown buys at most one round of actions.
 */
module Endless {
  import opened Domain
  import opened Authority
  import opened Cascade
  import opened Echo
  import D = Delivery
  import R = Replay
  import W = Worker

  // ---------- What the cooldown is good for ----------

  function Expiries(steps: seq<Step>): nat {
    if steps == [] then 0 else (if steps[0].Expire? then 1 else 0) + Expiries(steps[1..])
  }

  /** The rules cooling down for a sender. */
  function Hot(cooling: set<Cooldown>, sender: Option<UserId>): Picks {
    set key | key in cooling && key.sender == sender :: (key.bot, key.rule)
  }

  function Heat(bots: seq<Bot>, cooling: set<Cooldown>, sender: Option<UserId>): nat {
    EngineRuns(bots, |bots|, Hot(cooling, sender))
  }

  lemma {:induction false} BotRunsApart(rules: seq<Rule>, n: nat, b: nat, x: Picks, y: Picks)
    requires n <= |rules| && x !! y
    ensures BotRuns(rules, n, b, x + y) == BotRuns(rules, n, b, x) + BotRuns(rules, n, b, y)
  {
    if n != 0 { BotRunsApart(rules, n - 1, b, x, y); }
  }

  lemma {:induction false} RunsApart(bots: seq<Bot>, n: nat, x: Picks, y: Picks)
    requires n <= |bots| && x !! y
    ensures EngineRuns(bots, n, x + y) == EngineRuns(bots, n, x) + EngineRuns(bots, n, y)
  {
    if n != 0 {
      RunsApart(bots, n - 1, x, y);
      BotRunsApart(bots[n - 1].rules, |bots[n - 1].rules|, n - 1, x, y);
    }
  }

  /** The actions an event runs are those of rules that were cool before and are hot after it. */
  lemma {:induction false} FiringHeats(bots: seq<Bot>, e: Event, sender: Option<UserId>, passes: Picks,
      cooling: set<Cooldown>, after: set<Cooldown>)
    requires after == cooling + Started(Fired(bots, e, sender, passes, cooling), sender)
    ensures Heat(bots, after, sender)
         == Heat(bots, cooling, sender) + EngineRuns(bots, |bots|, Fired(bots, e, sender, passes, cooling))
    ensures forall s :: s != sender ==> Hot(after, s) == Hot(cooling, s)
  {
    var fired := Fired(bots, e, sender, passes, cooling);
    assert Hot(after, sender) == Hot(cooling, sender) + fired by {
      forall p | p in fired ensures p in Hot(after, sender) { assert Cooldown(p.0, p.1, sender) in after; }
    }
    RunsApart(bots, |bots|, Hot(cooling, sender), fired);
  }

  predicate SentBySelf(cmd: Command, self: UserId) {
    (cmd.BotSend? && cmd.botId == self) || (cmd.AddReaction? && cmd.actor == Some(self))
  }

  /** The two senders of a cascade. */
  ghost predicate TwoSenders(l: Loop, self: UserId, first: Option<UserId>) {
    && (forall e :: e in l.inbox ==> Sender(e, l.actor) == first || Sender(e, l.actor) == Some(self))
    && forall cmd | cmd in l.commands :: SentBySelf(cmd, self)
  }

  function BothHeats(bots: seq<Bot>, cooling: set<Cooldown>, self: UserId, first: Option<UserId>): nat {
    Heat(bots, cooling, Some(self)) + if first == Some(self) then 0 else Heat(bots, cooling, first)
  }

  lemma {:induction false} ProcessHeats(bots: seq<Bot>, self: UserId, l: Loop, i: nat, passes: Picks, draws: Draws,
      first: Option<UserId>, n: Loop)
    requires TwoSenders(l, self, first) && i < |l.inbox| && n == Processed(bots, self, l, i, passes, draws)
    ensures TwoSenders(n, self, first)
    ensures n.actions - l.actions == BothHeats(bots, n.cooling, self, first) - BothHeats(bots, l.cooling, self, first)
  {
    var e := l.inbox[i];
    var sender := Sender(e, l.actor);
    var fired := Fired(bots, e, sender, passes, l.cooling);
    assert e in l.inbox && forall x :: x in n.inbox ==> x in l.inbox;
    FiringHeats(bots, e, sender, passes, l.cooling, n.cooling);
    forall cmd | cmd in EngineCommands(self, bots, |bots|, e, fired, draws) ensures SentBySelf(cmd, self) {
      EngineIssues(self, bots, e, fired, draws, cmd);
    }
  }

  lemma {:induction false} ExpiryCools(bots: seq<Bot>, cooling: set<Cooldown>, key: Cooldown, self: UserId,
      first: Option<UserId>)
    ensures BothHeats(bots, cooling, self, first) <= BothHeats(bots, cooling - {key}, self, first) + TotalActions(bots)
  {
    RunsWithin(bots, |bots|, Hot(cooling, key.sender));
    forall s | s != key.sender ensures Hot(cooling - {key}, s) == Hot(cooling, s) {
    }
  }

  lemma {:induction false} HandleSenders(l: Loop, self: UserId, first: Option<UserId>, cmd: Command, pick: Choice,
      after: Db)
    requires TwoSenders(l, self, first) && cmd in l.commands && pick.newId !in l.db.messages
    requires after == W.Handle(l.db, cmd, pick).db
    ensures forall e | e in News(l.db, after) :: Sender(e, l.actor) == Some(self)
  {
    HandledEffect(l.db, cmd, pick, after);
  }

  lemma {:induction false} NextThrottled(bots: seq<Bot>, self: UserId, l: Loop, s: Step, first: Option<UserId>, n: Loop)
    requires TwoSenders(l, self, first) && n == Next(bots, self, l, s)
    ensures TwoSenders(n, self, first)
    ensures n.actions - BothHeats(bots, n.cooling, self, first)
         <= l.actions - BothHeats(bots, l.cooling, self, first) + if s.Expire? then TotalActions(bots) else 0
  {
    match s
    case Process(i, passes, draws) => if i < |l.inbox| { ProcessHeats(bots, self, l, i, passes, draws, first, n); }
    case Expire(key) => ExpiryCools(bots, l.cooling, key, self, first);
    case Handle(j, pick, _) =>
      if j < |l.commands| && pick.newId !in l.db.messages {
        HandleSenders(l, self, first, l.commands[j], pick, n.db);
      }
  }

  lemma {:induction false} RunThrottled(bots: seq<Bot>, self: UserId, l: Loop, steps: seq<Step>, first: Option<UserId>)
    requires TwoSenders(l, self, first)
    ensures var n := Run(bots, self, l, steps);
      n.actions - BothHeats(bots, n.cooling, self, first)
      <= l.actions - BothHeats(bots, l.cooling, self, first) + TotalActions(bots) * Expiries(steps)
    decreases |steps|
  {
    if steps != [] {
      NextThrottled(bots, self, l, steps[0], first, Next(bots, self, l, steps[0]));
      RunThrottled(bots, self, Next(bots, self, l, steps[0]), steps[1..], first);
      OneMore(TotalActions(bots), Expiries(steps[1..]));
    }
  }

  /**
   What the cooldown per bot, rule and sender is good for: whatever the table, the cascade of
   one event runs at most A actions per sender it involves (the first event's and the bot) and
   at most A more for every cooldown that expires meanwhile.
   */
  lemma {:induction false} CooldownThrottles(bots: seq<Bot>, self: UserId, db: Db, trigger: Event,
      actor: Option<UserId>, steps: seq<Step>)
    ensures Run(bots, self, Start(db, trigger, actor), steps).actions <= TotalActions(bots) * (2 + Expiries(steps))
  {
    var start, first := Start(db, trigger, actor), Sender(trigger, actor);
    var n := Run(bots, self, start, steps);
    RunThrottled(bots, self, start, steps, first);
    HeatsBounded(bots, start.cooling, self, first);
    HeatsBounded(bots, n.cooling, self, first);
    TwoMore(TotalActions(bots), Expiries(steps));
  }

  lemma {:induction false} HeatsBounded(bots: seq<Bot>, cooling: set<Cooldown>, self: UserId, first: Option<UserId>)
    ensures 0 <= BothHeats(bots, cooling, self, first) <= TotalActions(bots) + TotalActions(bots)
  {
    RunsWithin(bots, |bots|, Hot(cooling, Some(self)));
    RunsWithin(bots, |bots|, Hot(cooling, first));
  }

  lemma OneMore(a: nat, k: nat)
    ensures a * (1 + k) == a * k + a
  {
  }

  lemma TwoMore(a: nat, k: nat)
    ensures a * (2 + k) == a * k + a + a
  {
  }

  // ---------- One round of an echo ----------

  /** Bot `self` may write in conversation `c`. */
  ghost predicate Host(db: Db, self: UserId, c: ConversationId) {
    D.Sound(db) && IsMember(db, c, self) && self in db.bots && db.bots[self]
  }

  /** The last event waits to be processed, no rule is cooling down, and its message is in its conversation. */
  ghost predicate Poised(l: Loop, self: UserId) {
    && l.inbox != [] && l.cooling == {}
    && var e := l.inbox[|l.inbox| - 1];
    && Host(l.db, self, R.Home(e))
    && R.Subject(e).Some? && InConversation(l.db, R.Subject(e).value, R.Home(e))
    && !l.db.messages[R.Subject(e).value].deleted
  }

  /** It announces a message with this text, and the bot has not reacted to it. */
  ghost predicate Announces(l: Loop, self: UserId, text: string) {
    && Poised(l, self)
    && var e := l.inbox[|l.inbox| - 1];
    && e.MessageCreated? && e.message.content == text
    && forall x :: ReactionKey(e.message.id, Reaction(x, self)) !in l.db.reactions
  }

  lemma {:induction false} UpperBound(s: set<nat>) returns (n: nat)
    ensures forall x :: x in s ==> x < n
    decreases s
  {
    if s == {} {
      n := 0;
    } else {
      var x :| x in s;
      var m := UpperBound(s - {x});
      n := if m <= x then x + 1 else m;
      forall y | y in s ensures y < n { if y != x { assert y in s - {x}; } }
    }
  }

  lemma {:induction false} FreshIds(db: Db) returns (id: MessageId, cmid: ClientMessageId)
    ensures id !in db.messages && !ClientIdTaken(db, cmid)
  {
    id := UpperBound(db.messages.Keys);
    var used := set i | i in db.messages :: db.messages[i].clientMessageId;
    cmid := UpperBound(used);
    forall i | i in db.messages
      ensures db.messages[i].clientMessageId != cmid
    {
      assert db.messages[i].clientMessageId in used;
    }
  }

  /**
   Only rule (b, r) meets its conditions; it fires, its cooldown is waited for, and `cmd` is among
   what it published.
   */
  lemma {:induction false} FireOne(bots: seq<Bot>, self: UserId, l: Loop, b: nat, r: nat, i: nat, draw: Draw,
      cmd: Command)
    returns (steps: seq<Step>, v: Loop, j: nat)
    requires l.inbox != [] && l.cooling == {} && InTable(bots, b, r) && i < |bots[b].rules[r].actions|
    requires var e := l.inbox[|l.inbox| - 1];
      !Skips(bots[b], e) && Wakes(bots[b].rules[r], e) && cmd in CommandOf(self, bots[b].rules[r].actions[i], draw, e)
    ensures v == Run(bots, self, l, steps) && v.db == l.db && v.cooling == {} && v.actions >= l.actions + 1
    ensures j < |v.commands| && v.commands[j] == cmd
  {
    var e := l.inbox[|l.inbox| - 1];
    var fire := Process(|l.inbox| - 1, {(b, r)}, (_, _, _) => draw);
    var cool := Expire(Cooldown(b, r, Sender(e, l.actor)));
    var u := Next(bots, self, l, fire);
    FireNext(bots, self, l, b, r, i, draw, cmd, fire, u);
    v := Next(bots, self, u, cool);
    steps := [fire] + [cool];
    RunSplit(bots, self, l, [fire], [cool]);
    RunOne(bots, self, l, fire);
    RunOne(bots, self, u, cool);
    j :| 0 <= j < |v.commands| && v.commands[j] == cmd;
  }

  lemma {:induction false} FireNext(bots: seq<Bot>, self: UserId, l: Loop, b: nat, r: nat, i: nat, draw: Draw,
      cmd: Command, fire: Step, u: Loop)
    requires l.inbox != [] && l.cooling == {} && InTable(bots, b, r) && i < |bots[b].rules[r].actions|
    requires var e := l.inbox[|l.inbox| - 1];
      !Skips(bots[b], e) && Wakes(bots[b].rules[r], e) && cmd in CommandOf(self, bots[b].rules[r].actions[i], draw, e)
    requires fire.Process? && fire.event == |l.inbox| - 1 && fire.passes == {(b, r)} && fire.draws(b, r, i) == draw
    requires u == Next(bots, self, l, fire)
    ensures u.db == l.db && u.cooling == {Cooldown(b, r, Sender(l.inbox[|l.inbox| - 1], l.actor))}
    ensures u.actions >= l.actions + 1 && cmd in u.commands
  {
    var e := l.inbox[|l.inbox| - 1];
    OnlyFires(bots, self, e, Sender(e, l.actor), b, r, i, draw, cmd, fire.draws);
  }

  lemma {:induction false} OnlyFires(bots: seq<Bot>, self: UserId, e: Event, sender: Option<UserId>, b: nat, r: nat,
      i: nat, draw: Draw, cmd: Command, draws: Draws)
    requires InTable(bots, b, r) && i < |bots[b].rules[r].actions| && draws(b, r, i) == draw
    requires !Skips(bots[b], e) && Wakes(bots[b].rules[r], e)
    requires cmd in CommandOf(self, bots[b].rules[r].actions[i], draw, e)
    ensures var fired := Fired(bots, e, sender, {(b, r)}, {});
      && Started(fired, sender) == {Cooldown(b, r, sender)}
      && cmd in EngineCommands(self, bots, |bots|, e, fired, draws) && 1 <= EngineRuns(bots, |bots|, fired)
  {
    var fired := Fired(bots, e, sender, {(b, r)}, {});
    assert (b, r) in fired;
    assert fired == {(b, r)};
    assert Issues(self, bots, e, fired, draws, cmd, b, r, i);
    EngineIssues(self, bots, e, fired, draws, cmd);
    EngineBounded(self, bots, |bots|, e, fired, draws);
  }

  lemma RunOne(bots: seq<Bot>, self: UserId, l: Loop, s: Step)
    ensures Run(bots, self, l, [s]) == Next(bots, self, l, s)
  {
  }

  /** The command at j is handled and acknowledged after the given steps. */
  lemma {:induction false} HandleAfter(bots: seq<Bot>, self: UserId, l: Loop, before: seq<Step>, u: Loop, j: nat,
      cmd: Command, pick: Choice) returns (steps: seq<Step>, v: Loop)
    requires u == Run(bots, self, l, before) && j < |u.commands| && u.commands[j] == cmd && pick.newId !in u.db.messages
    ensures v == Run(bots, self, l, steps) && v.cooling == u.cooling && v.actions == u.actions
    ensures v.db == W.Handle(u.db, cmd, pick).db && v.inbox == u.inbox + News(u.db, v.db)
  {
    var handle := Handle(j, pick, true);
    v := Next(bots, self, u, handle);
    steps := before + [handle];
    RunSplit(bots, self, l, before, [handle]);
    RunOne(bots, self, u, handle);
  }

  /** A bot send into a conversation the bot may write in is stored and announced. */
  lemma {:induction false} SendLands(db: Db, self: UserId, data: SendData, pick: Choice, after: Db)
    requires Host(db, self, data.conversationId) && ReplyTargetOk(db, data)
    requires pick.newId !in db.messages && !ClientIdTaken(db, data.clientMessageId)
    requires after == W.Handle(db, BotSend(self, data), pick).db
    ensures Host(after, self, data.conversationId)
    ensures pick.newId in after.messages && var m := after.messages[pick.newId];
      && News(db, after) == [MessageCreated(m)] && m.id == pick.newId && m.senderType == BotSender && !m.deleted
      && m.content == data.content && m.conversationId == data.conversationId
      && forall x :: ReactionKey(m.id, Reaction(x, self)) !in after.reactions
  {
    var r := TxSend(db, self, BotSender, data, pick);
    D.SequenceIndexNeverFires(db, self, BotSender, data, pick);
    D.SendSound(db, self, BotSender, data, pick, r.db);
    forall k | k in db.reactions
      ensures k.messageId != pick.newId
    {
      assert InConversation(db, k.messageId, db.reactions[k]);
    }
  }

  /** What an action that can say a text publishes for it, with the right values of its placeholders. */
  lemma {:induction false} SayCommand(action: Action, self: UserId, e: Event, cmid: ClientMessageId, text: string)
    returns (draw: Draw, data: SendData)
    requires CanSay(action, text)
    ensures BotSend(self, data) in CommandOf(self, action, draw, e)
    ensures data.conversationId == R.Home(e) && data.clientMessageId == cmid && data.content == text
    ensures data.replyToId.None? || data.replyToId == R.Subject(e)
  {
    var fill: Fill := _ => "";
    if action.Say? { fill :| Render(action.template, fill) == text; }
    draw := Draw(cmid, fill);
    data := CommandOf(self, action, draw, e)[0].data;
  }

  /** The rule can say this text: a message with it is announced. */
  lemma {:induction false} SayRound(bots: seq<Bot>, self: UserId, l: Loop, b: nat, r: nat, text: string)
    returns (steps: seq<Step>, v: Loop)
    requires Poised(l, self) && InTable(bots, b, r) && Says(bots[b].rules[r], text)
    requires var e := l.inbox[|l.inbox| - 1]; !Skips(bots[b], e) && Wakes(bots[b].rules[r], e)
    ensures v == Run(bots, self, l, steps) && v.actions >= l.actions + 1 && Announces(v, self, text)
  {
    var i: nat :| i < |bots[b].rules[r].actions| && CanSay(bots[b].rules[r].actions[i], text);
    var id, cmid := FreshIds(l.db);
    var draw, data := SayCommand(bots[b].rules[r].actions[i], self, l.inbox[|l.inbox| - 1], cmid, text);
    var before, u, j := FireOne(bots, self, l, b, r, i, draw, BotSend(self, data));
    steps, v := SendRound(bots, self, l, before, u, j, data, id);
  }

  /** The bot send among the commands is handled: its message is announced. */
  lemma {:induction false} SendRound(bots: seq<Bot>, self: UserId, l: Loop, before: seq<Step>, u: Loop, j: nat,
      data: SendData, id: MessageId) returns (steps: seq<Step>, v: Loop)
    requires u == Run(bots, self, l, before) && u.cooling == {} && j < |u.commands|
    requires u.commands[j] == BotSend(self, data)
    requires Host(u.db, self, data.conversationId) && ReplyTargetOk(u.db, data)
    requires id !in u.db.messages && !ClientIdTaken(u.db, data.clientMessageId)
    ensures v == Run(bots, self, l, steps) && v.actions == u.actions && Announces(v, self, data.content)
  {
    steps, v := HandleAfter(bots, self, l, before, u, j, BotSend(self, data), Choice(id, 0, []));
    SendLands(u.db, self, data, Choice(id, 0, []), v.db);
  }

  lemma {:induction false} ReactionLands(db: Db, self: UserId, c: ConversationId, id: MessageId, emoji: Emoji,
      pick: Choice, after: Db)
    requires Host(db, self, c) && InConversation(db, id, c) && !db.messages[id].deleted
    requires ReactionKey(id, Reaction(emoji, self)) !in db.reactions
    requires after == W.Handle(db, AddReaction(Some(self), c, id, emoji), pick).db
    ensures Host(after, self, c) && after.messages == db.messages
    ensures News(db, after) == [ReactionAdded(c, id, Reaction(emoji, self))]
  {
    D.AddReactionSound(db, self, c, id, emoji, TxAddReaction(db, self, c, id, emoji).db);
  }

  lemma ReactCommand(action: Action, self: UserId, e: Event, draw: Draw)
    requires action.React? && e.MessageCreated?
    ensures AddReaction(Some(self), R.Home(e), e.message.id, action.emoji) in CommandOf(self, action, draw, e)
  {
  }

  /** The rule reacts: a reaction on the message is announced. */
  lemma {:induction false} ReactRound(bots: seq<Bot>, self: UserId, l: Loop, b: nat, r: nat, text: string)
    returns (steps: seq<Step>, v: Loop)
    requires Announces(l, self, text) && InTable(bots, b, r) && Reacts(bots[b].rules[r])
    requires var e := l.inbox[|l.inbox| - 1]; !Skips(bots[b], e) && Wakes(bots[b].rules[r], e)
    ensures v == Run(bots, self, l, steps) && v.actions >= l.actions + 1
    ensures Poised(v, self) && v.inbox[|v.inbox| - 1].ReactionAdded?
  {
    var e := l.inbox[|l.inbox| - 1];
    var id, _ := FreshIds(l.db);
    var i: nat :| i < |bots[b].rules[r].actions| && bots[b].rules[r].actions[i].React?;
    var c, m, emoji := R.Home(e), e.message.id, bots[b].rules[r].actions[i].emoji;
    var draw := Draw(0, _ => "");
    ReactCommand(bots[b].rules[r].actions[i], self, e, draw);
    var before, u, j := FireOne(bots, self, l, b, r, i, draw, AddReaction(Some(self), c, m, emoji));
    steps, v := ReactionRound(bots, self, l, before, u, j, c, m, emoji, id);
  }

  /** The reaction among the commands is handled: it is announced. */
  lemma {:induction false} ReactionRound(bots: seq<Bot>, self: UserId, l: Loop, before: seq<Step>, u: Loop, j: nat,
      c: ConversationId, m: MessageId, emoji: Emoji, id: MessageId) returns (steps: seq<Step>, v: Loop)
    requires u == Run(bots, self, l, before) && u.cooling == {} && j < |u.commands|
    requires u.commands[j] == AddReaction(Some(self), c, m, emoji)
    requires Host(u.db, self, c) && InConversation(u.db, m, c) && !u.db.messages[m].deleted
    requires id !in u.db.messages && ReactionKey(m, Reaction(emoji, self)) !in u.db.reactions
    ensures v == Run(bots, self, l, steps) && v.actions == u.actions
    ensures Poised(v, self) && v.inbox[|v.inbox| - 1].ReactionAdded?
  {
    steps, v := HandleAfter(bots, self, l, before, u, j, AddReaction(Some(self), c, m, emoji), Choice(id, 0, []));
    ReactionLands(u.db, self, c, m, emoji, Choice(id, 0, []), v.db);
  }

  // ---------- An echo passes every bound ----------

  /** A message that triggers the rule, and one the rule leads to: the second is announced after the first. */
  lemma {:induction false} LeadRound(bots: seq<Bot>, self: UserId, l: Loop, p: Pick, text: string, next: string)
    returns (steps: seq<Step>, v: Loop)
    requires Announces(l, self, text) && Listens(bots, p, text) && Leads(bots, p, next)
    ensures v == Run(bots, self, l, steps) && v.actions >= l.actions + 1 && Announces(v, self, next)
  {
    if Says(bots[p.0].rules[p.1], next) {
      steps, v := SayRound(bots, self, l, p.0, p.1, next);
    } else {
      var reacting, u := ReactRound(bots, self, l, p.0, p.1, text);
      var b: nat, r: nat :|
        InTable(bots, b, r) && bots[b].rules[r].trigger == OnEvent(REACTION_ADDED) && Says(bots[b].rules[r], next);
      var saying, w := SayRound(bots, self, u, b, r, next);
      RunSplit(bots, self, l, reacting, saying);
      steps, v := reacting + saying, w;
    }
  }

  /** Among rules that sustain each other there is always a next message. */
  lemma {:induction false} EchoRounds(bots: seq<Bot>, self: UserId, l: Loop, rules: Picks, p: Pick, text: string,
      n: nat)
    returns (steps: seq<Step>)
    requires Sustains(bots, rules) && p in rules && Listens(bots, p, text) && Announces(l, self, text)
    ensures Run(bots, self, l, steps).actions >= l.actions + n
    decreases n
  {
    if n == 0 {
      steps := [];
    } else {
      var next, q := NextOf(bots, rules, p);
      var once, v := LeadRound(bots, self, l, p, text, next);
      var rest := EchoRounds(bots, self, v, rules, q, next, n - 1);
      RunSplit(bots, self, l, once, rest);
      steps := once + rest;
    }
  }

  /** A run of the worker in which a user sends one message to a conversation with the bot. */
  lemma {:induction false} Opening(self: UserId, text: string) returns (steps: seq<D.Step>, db: Db, m: Message)
    ensures db == D.Run(D.Initial(map[self := true]), steps).db && db.outbox != []
    ensures db.outbox[|db.outbox| - 1] == MessageCreated(m) && m.senderType == UserSender && m.senderId == self + 1
    ensures Announces(Start(db, MessageCreated(m), Some(self + 1)), self, text)
  {
    var start := D.Initial(map[self := true]);
    var create := D.CreateConversation(1, map[self := Ordinary, self + 1 := Ordinary]);
    var w := D.Next(start, create);
    D.RunLast(start, [], create);
    var served := D.Served(0, Send(Some(self + 1), SendData(1, 0, Text, text, None)), Choice(0, 0, []));
    D.RunSplit(start, [create], served);
    steps := [create] + served;
    assert w.db.conversations[1].members == map[self := Member(Ordinary, 0, 0), self + 1 := Member(Ordinary, 0, 0)];
    D.InitialInv(map[self := true]);
    D.RunKeeps(start, steps);
    db, m := FirstMessage(self, text, w, D.Run(w, served));
    assert [] + [create] == [create];
  }

  lemma {:induction false} FirstMessage(self: UserId, text: string, w: D.World, v: D.World) returns (db: Db, m: Message)
    requires var members := map[self := Member(Ordinary, 0, 0), self + 1 := Member(Ordinary, 0, 0)];
      w.db == Db(map[1 := Conversation(0, false, members)], map[], map[], map[self := true], w.db.outbox)
    requires w.tasks == map[] && D.Sound(v.db)
    requires v == D.Run(w, D.Served(0, Send(Some(self + 1), SendData(1, 0, Text, text, None)), Choice(0, 0, [])))
    ensures db == v.db && db.outbox != [] && db.outbox[|db.outbox| - 1] == MessageCreated(m)
    ensures m.senderType == UserSender && m.senderId == self + 1
    ensures Announces(Start(db, MessageCreated(m), Some(self + 1)), self, text)
  {
    db := v.db;
    var cmd := Send(Some(self + 1), SendData(1, 0, Text, text, None));
    D.RunServed(w, 0, cmd, Choice(0, 0, []), v);
    m := db.messages[0];
  }

  /**
   An echoing table passes every bound: after some run of the worker a user's message starts a
   cascade with more than n actions, for every n, for some outcome of conditions and
   placeholders and with every fired rule's cooldown waited for.
   */
  lemma {:induction false} EchoNeverStops(bots: seq<Bot>, self: UserId, n: nat)
    returns (opening: seq<D.Step>, trigger: Event, steps: seq<Step>)
    requires Echoes(bots)
    ensures var db := D.Run(D.Initial(map[self := true]), opening).db;
      && db.outbox != [] && db.outbox[|db.outbox| - 1] == trigger
      && trigger.MessageCreated? && trigger.message.senderType == UserSender
      && Run(bots, self, Start(db, trigger, Some(trigger.message.senderId)), steps).actions >= n
  {
    var rules, p, text := FirstOfEcho(bots);
    var before, db, m := Opening(self, text);
    opening, trigger := before, MessageCreated(m);
    steps := EchoRounds(bots, self, Start(db, trigger, Some(self + 1)), rules, p, text, n);
  }

  lemma {:induction false} FirstOfEcho(bots: seq<Bot>) returns (rules: Picks, p: Pick, text: string)
    requires Echoes(bots)
    ensures Sustains(bots, rules) && p in rules && Listens(bots, p, text)
  {
    rules :| Sustains(bots, rules);
    var first :| first in rules;
    text, p := NextOf(bots, rules, first);
  }

  lemma {:induction false} NextOf(bots: seq<Bot>, rules: Picks, p: Pick) returns (text: string, q: Pick)
    requires Continues(bots, p, rules)
    ensures q in rules && Leads(bots, p, text) && Listens(bots, q, text)
  {
    text, q :| q in rules && Leads(bots, p, text) && Listens(bots, q, text);
  }

  /** Some number bounds the actions of every cascade of the table. */
  ghost predicate Bounded(bots: seq<Bot>, self: UserId, limit: nat) {
    forall db, trigger, actor, steps :: Run(bots, self, Start(db, trigger, actor), steps).actions <= limit
  }

  /**
   The cascades of a table are bounded if and only if it does not echo: there are no rules each
   of which leads to a message that triggers one of them, by sending it now or on schedule, or
   by a reaction that some rule answers with it. Conditions and the values of placeholders are
   free, so "not bounded" means for some of them; literal texts and commands are exact.
   */
  lemma {:induction false} BoundedExactly(bots: seq<Bot>, self: UserId)
    ensures (exists limit: nat :: Bounded(bots, self, limit)) <==> !Echoes(bots)
  {
    if Echoes(bots) {
      forall limit: nat ensures !Bounded(bots, self, limit) {
        var opening, trigger, steps := EchoNeverStops(bots, self, limit + 1);
        var db := D.Run(D.Initial(map[self := true]), opening).db;
        assert Run(bots, self, Start(db, trigger, Some(trigger.message.senderId)), steps).actions > limit;
      }
    } else {
      var depth := |Table(bots)|;
      EchoFreeSettles(bots);
      forall db, trigger, actor, steps
        ensures Run(bots, self, Start(db, trigger, actor), steps).actions <= Limit(bots, depth, Actions)
      {
        CascadeBounded(bots, self, db, trigger, actor, steps, depth);
      }
      assert Bounded(bots, self, Limit(bots, depth, Actions));
    }
  }

  // ---------- Two tables ----------

  /** An allowing bot that schedules an answer to every message answers its own. */
  lemma {:induction false} ScheduledEchoes()
    ensures Echoes([Bot(true, [Rule(OnEvent(MESSAGE_CREATED), [Schedule("tick")])])])
  {
    var bots := [Bot(true, [Rule(OnEvent(MESSAGE_CREATED), [Schedule("tick")])])];
    var p: Pick, tick := (0, 0), "tick";
    assert tick[0] == 't' && Sendable(tick);
    assert CanSay(bots[0].rules[0].actions[0], tick);
    assert Leads(bots, p, tick) && Listens(bots, p, tick);
    assert Sustains(bots, {p});
  }

  const PING_PONG := [Bot(true, [Rule(OnCommand("ping"), [Say([Literal("pong")], true)])])]

  /** An allowing bot that answers /ping with pong does not. */
  lemma {:induction false} PingPongSettles()
    ensures !Echoes(PING_PONG)
  {
    forall rules ensures !Sustains(PING_PONG, rules) {
      forall p | p in rules ensures !Continues(PING_PONG, p, rules) {
        forall text, q: Pick | Leads(PING_PONG, p, text)
          ensures !Listens(PING_PONG, q, text)
        {
          PongIsNoCommand(p, text, q);
        }
      }
    }
  }

  lemma {:induction false} PongIsNoCommand(p: Pick, text: string, q: Pick)
    requires Leads(PING_PONG, p, text)
    ensures !Listens(PING_PONG, q, text)
  {
    var action := Say([Literal("pong")], true);
    assert PING_PONG[p.0].rules[p.1] == Rule(OnCommand("ping"), [action]);
    var fill: Fill :| Render(action.template, fill) == text;
    assert action.template[..0] == [] && text == "" + "pong";
    assert text[0] == 'p';
  }
}
