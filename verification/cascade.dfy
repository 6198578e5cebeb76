/**
 The bot rule engine and the chat worker as a closed loop: what an event makes the engine
 publish, and what handling those commands announces. How far a cascade goes is in Echo.
 */
module Cascade {
  import opened Domain
  import opened Authority
  import R = Replay
  import W = Worker

  const MESSAGE_CREATED := "message.created"
  const REACTION_ADDED := "reaction.added"

  /** A rule names an event type, or a slash command of a new message. */
  datatype Trigger = OnEvent(event: string) | OnCommand(command: string)

  /** A parsed template: text, and placeholders for values of the event's context. */
  datatype Piece = Literal(text: string) | Hole

  type Template = seq<Piece>

  /**
   Rule actions: a message now, a message sent by the scheduler later, a reaction, and those
   that publish nothing the chat worker handles.
   */
  datatype Action =
    | Say(template: Template, reply: bool)
    | Schedule(content: string)
    | React(emoji: Emoji)
    | Internal

  datatype Rule = Rule(trigger: Trigger, actions: seq<Action>)

  datatype Bot = Bot(allowBotMessages: bool, rules: seq<Rule>)

  /** What the placeholders of a template resolve to, by position. */
  type Fill = nat -> string

  /** A random message id and the values of placeholders; nothing is assumed about either. */
  datatype Draw = Draw(id: ClientMessageId, fill: Fill)

  /** Draws by bot, rule and action. */
  type Draws = (nat, nat, nat) -> Draw

  /** Rules, by bot and position. */
  type Picks = set<(nat, nat)>

  /** A key of the cooldown store: set when the rule fires, gone when it expires. */
  datatype Cooldown = Cooldown(bot: nat, rule: nat, sender: Option<UserId>)

  // ---------- Triggers ----------

  function EventType(e: Event): string {
    match e
    case ConversationCreated(_, _) => "conversation.created"
    case ConversationDeleted(_, _) => "conversation.deleted"
    case MessageCreated(_) => MESSAGE_CREATED
    case MessageEdited(_, _, _) => "message.edited"
    case MessageDeleted(_, _) => "message.deleted"
    case ReactionAdded(_, _, _) => REACTION_ADDED
    case ReactionRemoved(_, _, _) => "reaction.removed"
    case ReceiptRead(_, _, _, _) => "receipt.read"
    case ReceiptDelivered(_, _, _, _) => "receipt.delivered"
  }

  lemma {:induction false} TypesApart(e: Event)
    ensures EventType(e) == MESSAGE_CREATED <==> e.MessageCreated?
    ensures EventType(e) == REACTION_ADDED <==> e.ReactionAdded?
  {
    var t, made, added := EventType(e), MESSAGE_CREATED, REACTION_ADDED;
    assert |made| == 15 && made[8] == 'c' && |added| == 14 && added[0] == 'r';
    match e
    case MessageEdited(_, _, _) => assert t[0] == 'm';
    case MessageDeleted(_, _) => assert t[8] == 'd';
    case _ =>
  }

  predicate Space(c: char) {
    c == ' ' || '\t' <= c <= '\r'
  }

  function Lower(c: char): char {
    if 'A' <= c <= 'Z' then (c as int + 32) as char else c
  }

  function LowerCase(s: string): string {
    seq(|s|, i requires 0 <= i < |s| => Lower(s[i]))
  }

  /** The text up to the first blank. */
  function Word(s: string): string {
    if s == [] || Space(s[0]) then [] else [s[0]] + Word(s[1..])
  }

  /** The content is this slash command, with or without arguments. */
  predicate Commands(content: string, command: string) {
    content != [] && content[0] == '/' && LowerCase(Word(content[1..])) == LowerCase(command)
  }

  predicate Wakes(rule: Rule, e: Event) {
    match rule.trigger
    case OnEvent(event) => EventType(e) == event
    case OnCommand(command) => e.MessageCreated? && Commands(e.message.content, command)
  }

  /** The origin stamp of an event envelope. */
  predicate BotOrigin(e: Event) {
    e.MessageCreated? && e.message.senderType == BotSender
  }

  /** Loop protection: a bot that does not allow bot messages skips bot-originated events. */
  predicate Skips(bot: Bot, e: Event) {
    BotOrigin(e) && !bot.allowBotMessages
  }

  /** Whose cooldown an event counts against; `actor` is the envelope's, for events whose payload names no user. */
  function Sender(e: Event, actor: Option<UserId>): Option<UserId> {
    match e
    case MessageCreated(m) => Some(m.senderId)
    case ReactionAdded(_, _, r) => Some(r.userId)
    case ReactionRemoved(_, _, r) => Some(r.userId)
    case ReceiptRead(_, u, _, _) => Some(u)
    case ReceiptDelivered(_, u, _, _) => Some(u)
    case _ => actor
  }

  predicate InTable(bots: seq<Bot>, b: nat, r: nat) {
    b < |bots| && r < |bots[b].rules|
  }

  /** Not skipped, triggered, conditions met, and not cooling down. */
  predicate Fires(bots: seq<Bot>, e: Event, sender: Option<UserId>, passes: Picks, cooling: set<Cooldown>, b: nat,
      r: nat) {
    && InTable(bots, b, r)
    && !Skips(bots[b], e)
    && Wakes(bots[b].rules[r], e)
    && (b, r) in passes
    && Cooldown(b, r, sender) !in cooling
  }

  /** The rules that fire; `passes` are those whose conditions hold, any set. */
  function Fired(bots: seq<Bot>, e: Event, sender: Option<UserId>, passes: Picks, cooling: set<Cooldown>): Picks {
    set p | p in passes && Fires(bots, e, sender, passes, cooling, p.0, p.1)
  }

  function Started(fired: Picks, sender: Option<UserId>): set<Cooldown> {
    set p | p in fired :: Cooldown(p.0, p.1, sender)
  }

  // ---------- The rule engine ----------

  const MAX_TEXT := 10_000

  /** The worker takes a text message that is not blank and not too long, and drops any other as invalid. */
  predicate Sendable(text: string) {
    |text| <= MAX_TEXT && exists i :: 0 <= i < |text| && !Space(text[i])
  }

  function Render(template: Template, fill: Fill): string
    decreases |template|
  {
    if template == [] then ""
    else
      var n := |template| - 1;
      Render(template[..n], fill) + (match template[n] case Literal(text) => text case Hole => fill(n))
  }

  /**
   What the one transport bot publishes for an action and the worker does not drop. A scheduled
   text is sent as it stands, as no reply; commands wait as long as they like anyway.
   */
  function CommandOf(self: UserId, action: Action, draw: Draw, e: Event): seq<Command> {
    match action
    case Say(template, reply) =>
      var text := Render(template, draw.fill);
      if !Sendable(text) then []
      else [BotSend(self, SendData(R.Home(e), draw.id, Text, text, if reply then R.Subject(e) else None))]
    case Schedule(content) =>
      if !Sendable(content) then [] else [BotSend(self, SendData(R.Home(e), draw.id, Text, content, None))]
    case React(emoji) =>
      if R.Subject(e).None? then [] else [AddReaction(Some(self), R.Home(e), R.Subject(e).value, emoji)]
    case Internal => []
  }

  /** The first n actions of a rule. */
  function RuleCommands(self: UserId, actions: seq<Action>, n: nat, b: nat, r: nat, e: Event,
      draws: Draws): seq<Command>
    requires n <= |actions|
  {
    if n == 0 then []
    else RuleCommands(self, actions, n - 1, b, r, e, draws) + CommandOf(self, actions[n - 1], draws(b, r, n - 1), e)
  }

  /** The first n rules of a bot. */
  function BotCommands(self: UserId, rules: seq<Rule>, n: nat, b: nat, e: Event, fired: Picks,
      draws: Draws): seq<Command>
    requires n <= |rules|
  {
    if n == 0 then []
    else
      var r := n - 1;
      BotCommands(self, rules, r, b, e, fired, draws)
      + (if (b, r) in fired then RuleCommands(self, rules[r].actions, |rules[r].actions|, b, r, e, draws) else [])
  }

  /** The first n bots. */
  function EngineCommands(self: UserId, bots: seq<Bot>, n: nat, e: Event, fired: Picks, draws: Draws): seq<Command>
    requires n <= |bots|
  {
    if n == 0 then []
    else
      EngineCommands(self, bots, n - 1, e, fired, draws)
      + BotCommands(self, bots[n - 1].rules, |bots[n - 1].rules|, n - 1, e, fired, draws)
  }

  /** How many actions run. */
  function BotRuns(rules: seq<Rule>, n: nat, b: nat, fired: Picks): nat
    requires n <= |rules|
  {
    if n == 0 then 0 else BotRuns(rules, n - 1, b, fired) + (if (b, n - 1) in fired then |rules[n - 1].actions| else 0)
  }

  function EngineRuns(bots: seq<Bot>, n: nat, fired: Picks): nat
    requires n <= |bots|
  {
    if n == 0 then 0
    else EngineRuns(bots, n - 1, fired) + BotRuns(bots[n - 1].rules, |bots[n - 1].rules|, n - 1, fired)
  }

  /** The ids of the rules that ran, in order. */
  function BotMatches(rules: seq<Rule>, n: nat, b: nat, fired: Picks): seq<(nat, nat)>
    requires n <= |rules|
  {
    if n == 0 then [] else BotMatches(rules, n - 1, b, fired) + (if (b, n - 1) in fired then [(b, n - 1)] else [])
  }

  function EngineMatches(bots: seq<Bot>, n: nat, fired: Picks): seq<(nat, nat)>
    requires n <= |bots|
  {
    if n == 0 then []
    else EngineMatches(bots, n - 1, fired) + BotMatches(bots[n - 1].rules, |bots[n - 1].rules|, n - 1, fired)
  }

  /** A bot none of whose rules fired publishes and matches nothing. */
  lemma {:induction false} QuietBot(self: UserId, rules: seq<Rule>, n: nat, b: nat, e: Event, fired: Picks,
      draws: Draws)
    requires n <= |rules| && forall r: nat :: (b, r) !in fired
    ensures BotCommands(self, rules, n, b, e, fired, draws) == []
    ensures BotMatches(rules, n, b, fired) == [] && BotRuns(rules, n, b, fired) == 0
  {
    if n != 0 { QuietBot(self, rules, n - 1, b, e, fired, draws); }
  }

  /** The rules before position (b, r) in the order the engine takes them. */
  function Before(fired: Picks, b: nat, r: nat): Picks {
    set p | p in fired && (p.0 < b || (p.0 == b && p.1 < r))
  }

  /** Taking the next rule in order: its own cooldown is as it was when the event came. */
  lemma {:induction false} NextRule(bots: seq<Bot>, e: Event, sender: Option<UserId>, passes: Picks,
      begun: set<Cooldown>, b: nat, r: nat)
    requires InTable(bots, b, r) && !Skips(bots[b], e)
    ensures var fired := Fired(bots, e, sender, passes, begun);
      var key, cooling := Cooldown(b, r, sender), begun + Started(Before(fired, b, r), sender);
      && (key in cooling <==> key in begun)
      && ((b, r) in fired <==> Wakes(bots[b].rules[r], e) && (b, r) in passes && key !in begun)
      && begun + Started(Before(fired, b, r + 1), sender) == cooling + (if (b, r) in fired then {key} else {})
  {
    var fired := Fired(bots, e, sender, passes, begun);
    assert Before(fired, b, r + 1) == Before(fired, b, r) + if (b, r) in fired then {(b, r)} else {};
  }

  /** The engine process: its transport's identity, the loaded rules and the cooldown store. */
  class RuleEngine {
    const self: UserId
    var bots: seq<Bot>
    var cooling: set<Cooldown>

    constructor (self: UserId, bots: seq<Bot>)
      ensures this.self == self && this.bots == bots && cooling == {}
    {
      this.self := self;
      this.bots, cooling := bots, {};
    }

    /** SET key NX EX: true for the caller that set it. */
    method TryAcquireCooldown(key: Cooldown) returns (allowed: bool)
      modifies this`cooling
      ensures allowed <==> key !in old(cooling)
      ensures cooling == old(cooling) + {key}
    {
      allowed := key !in cooling;
      cooling := cooling + {key};
    }

    /** executeActions: the actions of a fired rule, in order. */
    method ExecuteActions(actions: seq<Action>, b: nat, r: nat, e: Event,
        draws: Draws) returns (published: seq<Command>)
      ensures published == RuleCommands(self, actions, |actions|, b, r, e, draws)
    {
      published := [];
      for i := 0 to |actions|
        invariant published == RuleCommands(self, actions, i, b, r, e, draws)
      {
        published := published + CommandOf(self, actions[i], draws(b, r, i), e);
      }
    }

    /** The rules of one bot that is not skipped. */
    method ProcessBot(b: nat, e: Event, sender: Option<UserId>, passes: Picks, draws: Draws, ghost fired: Picks,
        ghost begun: set<Cooldown>)
      returns (matched: seq<(nat, nat)>, published: seq<Command>, ran: nat)
      requires b < |bots| && !Skips(bots[b], e) && fired == Fired(bots, e, sender, passes, begun)
      requires cooling == begun + Started(Before(fired, b, 0), sender)
      modifies this`cooling
      ensures published == BotCommands(self, bots[b].rules, |bots[b].rules|, b, e, fired, draws)
      ensures matched == BotMatches(bots[b].rules, |bots[b].rules|, b, fired)
      ensures ran == BotRuns(bots[b].rules, |bots[b].rules|, b, fired)
      ensures cooling == begun + Started(Before(fired, b + 1, 0), sender)
    {
      matched, published, ran := [], [], 0;
      var rules := bots[b].rules;
      for r := 0 to |rules|
        invariant published == BotCommands(self, rules, r, b, e, fired, draws)
        invariant matched == BotMatches(rules, r, b, fired) && ran == BotRuns(rules, r, b, fired)
        invariant cooling == begun + Started(Before(fired, b, r), sender)
      {
        var key := Cooldown(b, r, sender);
        NextRule(bots, e, sender, passes, begun, b, r);
        if Wakes(rules[r], e) && (b, r) in passes {
          var allowed := TryAcquireCooldown(key);
          if allowed {
            matched := matched + [(b, r)];
            var some := ExecuteActions(rules[r].actions, b, r, e, draws);
            published := published + some;
            ran := ran + |rules[r].actions|;
          }
        }
      }
      assert Before(fired, b, |rules|) == Before(fired, b + 1, 0);
    }

    /** processEvent: the matched rule ids, the commands published for them, the actions run, the cooldowns begun. */
    method ProcessEvent(e: Event, actor: Option<UserId>, passes: Picks, draws: Draws)
      returns (matched: seq<(nat, nat)>, published: seq<Command>, ran: nat)
      modifies this`cooling
      ensures var fired := Fired(bots, e, Sender(e, actor), passes, old(cooling));
        && published == EngineCommands(self, bots, |bots|, e, fired, draws)
        && matched == EngineMatches(bots, |bots|, fired) && ran == EngineRuns(bots, |bots|, fired)
        && cooling == old(cooling) + Started(fired, Sender(e, actor))
    {
      var sender := Sender(e, actor);
      ghost var begun := cooling;
      ghost var fired := Fired(bots, e, sender, passes, begun);
      matched, published, ran := [], [], 0;
      for b := 0 to |bots|
        invariant published == EngineCommands(self, bots, b, e, fired, draws)
        invariant matched == EngineMatches(bots, b, fired) && ran == EngineRuns(bots, b, fired)
        invariant cooling == begun + Started(Before(fired, b, 0), sender)
      {
        if Skips(bots[b], e) {
          QuietBot(self, bots[b].rules, |bots[b].rules|, b, e, fired, draws);
          assert Before(fired, b + 1, 0) == Before(fired, b, 0);
          continue;
        }
        var ids, commands, count := ProcessBot(b, e, sender, passes, draws, fired, begun);
        matched := matched + ids;
        published := published + commands;
        ran := ran + count;
      }
      assert Before(fired, |bots|, 0) == fired;
    }
  }

  // ---------- Where a command comes from ----------

  /** Action i of the fired rule (b, r) publishes `cmd`. */
  predicate Issues(self: UserId, bots: seq<Bot>, e: Event, fired: Picks, draws: Draws, cmd: Command, b: nat, r: nat,
      i: nat) {
    && InTable(bots, b, r) && (b, r) in fired && i < |bots[b].rules[r].actions|
    && cmd in CommandOf(self, bots[b].rules[r].actions[i], draws(b, r, i), e)
  }

  lemma {:induction false} RuleOrigin(self: UserId, actions: seq<Action>, n: nat, b: nat, r: nat, e: Event,
      draws: Draws, cmd: Command) returns (i: nat)
    requires n <= |actions| && cmd in RuleCommands(self, actions, n, b, r, e, draws)
    ensures i < n && cmd in CommandOf(self, actions[i], draws(b, r, i), e)
  {
    if cmd in CommandOf(self, actions[n - 1], draws(b, r, n - 1), e) {
      i := n - 1;
    } else {
      i := RuleOrigin(self, actions, n - 1, b, r, e, draws, cmd);
    }
  }

  lemma {:induction false} BotOrigins(self: UserId, rules: seq<Rule>, n: nat, b: nat, e: Event, fired: Picks,
      draws: Draws, cmd: Command) returns (r: nat)
    requires n <= |rules| && cmd in BotCommands(self, rules, n, b, e, fired, draws)
    ensures r < n && (b, r) in fired
    ensures cmd in RuleCommands(self, rules[r].actions, |rules[r].actions|, b, r, e, draws)
  {
    r := n - 1;
    if cmd in BotCommands(self, rules, n - 1, b, e, fired, draws) {
      r := BotOrigins(self, rules, n - 1, b, e, fired, draws, cmd);
    }
  }

  lemma {:induction false} EngineOrigin(self: UserId, bots: seq<Bot>, n: nat, e: Event, fired: Picks, draws: Draws,
      cmd: Command) returns (b: nat)
    requires n <= |bots| && cmd in EngineCommands(self, bots, n, e, fired, draws)
    ensures b < n && cmd in BotCommands(self, bots[b].rules, |bots[b].rules|, b, e, fired, draws)
  {
    b := n - 1;
    if cmd in EngineCommands(self, bots, n - 1, e, fired, draws) {
      b := EngineOrigin(self, bots, n - 1, e, fired, draws, cmd);
    }
  }

  lemma {:induction false} RulePublishes(self: UserId, actions: seq<Action>, n: nat, b: nat, r: nat, e: Event,
      draws: Draws, cmd: Command, i: nat)
    requires i < n <= |actions| && cmd in CommandOf(self, actions[i], draws(b, r, i), e)
    ensures cmd in RuleCommands(self, actions, n, b, r, e, draws)
  {
    if i < n - 1 { RulePublishes(self, actions, n - 1, b, r, e, draws, cmd, i); }
  }

  lemma {:induction false} BotPublishes(self: UserId, rules: seq<Rule>, n: nat, b: nat, e: Event, fired: Picks,
      draws: Draws, cmd: Command, r: nat)
    requires r < n <= |rules| && (b, r) in fired
    requires cmd in RuleCommands(self, rules[r].actions, |rules[r].actions|, b, r, e, draws)
    ensures cmd in BotCommands(self, rules, n, b, e, fired, draws)
  {
    if r < n - 1 { BotPublishes(self, rules, n - 1, b, e, fired, draws, cmd, r); }
  }

  lemma {:induction false} EnginePublishes(self: UserId, bots: seq<Bot>, n: nat, e: Event, fired: Picks, draws: Draws,
      cmd: Command, b: nat)
    requires b < n <= |bots| && cmd in BotCommands(self, bots[b].rules, |bots[b].rules|, b, e, fired, draws)
    ensures cmd in EngineCommands(self, bots, n, e, fired, draws)
  {
    if b < n - 1 { EnginePublishes(self, bots, n - 1, e, fired, draws, cmd, b); }
  }

  /** Every published command is issued by an action of a fired rule, and every such command is published. */
  lemma {:induction false} EngineIssues(self: UserId, bots: seq<Bot>, e: Event, fired: Picks, draws: Draws,
      cmd: Command)
    ensures cmd in EngineCommands(self, bots, |bots|, e, fired, draws)
      <==> exists b: nat, r: nat, i: nat :: Issues(self, bots, e, fired, draws, cmd, b, r, i)
  {
    if cmd in EngineCommands(self, bots, |bots|, e, fired, draws) {
      var b := EngineOrigin(self, bots, |bots|, e, fired, draws, cmd);
      var r := BotOrigins(self, bots[b].rules, |bots[b].rules|, b, e, fired, draws, cmd);
      var actions := bots[b].rules[r].actions;
      var i := RuleOrigin(self, actions, |actions|, b, r, e, draws, cmd);
      assert Issues(self, bots, e, fired, draws, cmd, b, r, i);
    }
    if b: nat, r: nat, i: nat :| Issues(self, bots, e, fired, draws, cmd, b, r, i) {
      var actions := bots[b].rules[r].actions;
      RulePublishes(self, actions, |actions|, b, r, e, draws, cmd, i);
      BotPublishes(self, bots[b].rules, |bots[b].rules|, b, e, fired, draws, cmd, r);
      EnginePublishes(self, bots, |bots|, e, fired, draws, cmd, b);
    }
  }

  // ---------- How much one event can trigger ----------

  function ActionCount(rules: seq<Rule>, n: nat): nat
    requires n <= |rules|
  {
    if n == 0 then 0 else |rules[n - 1].actions| + ActionCount(rules, n - 1)
  }

  function ActionSum(bots: seq<Bot>, n: nat): nat
    requires n <= |bots|
  {
    if n == 0 then 0 else ActionCount(bots[n - 1].rules, |bots[n - 1].rules|) + ActionSum(bots, n - 1)
  }

  /** A: all actions of all loaded rules. */
  function TotalActions(bots: seq<Bot>): nat {
    ActionSum(bots, |bots|)
  }

  /** E: the emojis rules react with. */
  function Emojis(bots: seq<Bot>): set<Emoji> {
    set b, r, i | 0 <= b < |bots| && 0 <= r < |bots[b].rules| && 0 <= i < |bots[b].rules[r].actions|
                  && bots[b].rules[r].actions[i].React? :: bots[b].rules[r].actions[i].emoji
  }

  lemma {:induction false} BotRunsWithin(rules: seq<Rule>, n: nat, b: nat, fired: Picks)
    requires n <= |rules|
    ensures BotRuns(rules, n, b, fired) <= ActionCount(rules, n)
  {
    if n != 0 { BotRunsWithin(rules, n - 1, b, fired); }
  }

  /** One event runs no action twice. */
  lemma {:induction false} RunsWithin(bots: seq<Bot>, n: nat, fired: Picks)
    requires n <= |bots|
    ensures EngineRuns(bots, n, fired) <= ActionSum(bots, n)
  {
    if n != 0 {
      RunsWithin(bots, n - 1, fired);
      BotRunsWithin(bots[n - 1].rules, |bots[n - 1].rules|, n - 1, fired);
    }
  }

  lemma {:induction false} RuleBounded(self: UserId, actions: seq<Action>, n: nat, b: nat, r: nat, e: Event,
      draws: Draws)
    requires n <= |actions|
    ensures |RuleCommands(self, actions, n, b, r, e, draws)| <= n
  {
    if n != 0 { RuleBounded(self, actions, n - 1, b, r, e, draws); }
  }

  lemma {:induction false} BotBounded(self: UserId, rules: seq<Rule>, n: nat, b: nat, e: Event, fired: Picks,
      draws: Draws)
    requires n <= |rules|
    ensures |BotCommands(self, rules, n, b, e, fired, draws)| <= BotRuns(rules, n, b, fired)
  {
    if n != 0 {
      BotBounded(self, rules, n - 1, b, e, fired, draws);
      RuleBounded(self, rules[n - 1].actions, |rules[n - 1].actions|, b, n - 1, e, draws);
    }
  }

  /** Every action publishes at most one command. */
  lemma {:induction false} EngineBounded(self: UserId, bots: seq<Bot>, n: nat, e: Event, fired: Picks, draws: Draws)
    requires n <= |bots|
    ensures |EngineCommands(self, bots, n, e, fired, draws)| <= EngineRuns(bots, n, fired)
  {
    if n != 0 {
      EngineBounded(self, bots, n - 1, e, fired, draws);
      BotBounded(self, bots[n - 1].rules, |bots[n - 1].rules|, n - 1, e, fired, draws);
    }
  }

  // ---------- The closed loop ----------

  /**
   `inbox` holds published events not processed yet, `commands` those not acknowledged yet;
   `actor` sent the first event.
   */
  datatype Loop = Loop(
    db: Db,
    inbox: seq<Event>,
    commands: seq<Command>,
    actor: Option<UserId>,
    cooling: set<Cooldown>,
    actions: nat,
    processed: nat)

  datatype Step =
    | Process(event: nat, passes: Picks, draws: Draws)
    | Expire(key: Cooldown)
    | Handle(command: nat, pick: Choice, acked: bool)

  function Without<T>(s: seq<T>, i: nat): seq<T>
    requires i < |s|
  {
    s[..i] + s[i + 1..]
  }

  /** Outbox rows a handled command added. */
  function News(before: Db, after: Db): seq<Event> {
    if |before.outbox| <= |after.outbox| then after.outbox[|before.outbox|..] else []
  }

  function Processed(bots: seq<Bot>, self: UserId, l: Loop, i: nat, passes: Picks, draws: Draws): Loop
    requires i < |l.inbox|
  {
    var e := l.inbox[i];
    var sender := Sender(e, l.actor);
    var fired := Fired(bots, e, sender, passes, l.cooling);
    l.(inbox := Without(l.inbox, i),
       commands := l.commands + EngineCommands(self, bots, |bots|, e, fired, draws),
       cooling := l.cooling + Started(fired, sender),
       actions := l.actions + EngineRuns(bots, |bots|, fired),
       processed := l.processed + 1)
  }

  /**
   The engine takes one event; a cooldown expires; the worker handles one command, redelivered
   unless acknowledged.
   */
  function Next(bots: seq<Bot>, self: UserId, l: Loop, s: Step): Loop {
    match s
    case Process(i, passes, draws) => if i >= |l.inbox| then l else Processed(bots, self, l, i, passes, draws)
    case Expire(key) => l.(cooling := l.cooling - {key})
    case Handle(j, pick, acked) =>
      if j >= |l.commands| || pick.newId in l.db.messages then l
      else
        var h := W.Handle(l.db, l.commands[j], pick);
        l.(db := h.db, inbox := l.inbox + News(l.db, h.db),
           commands := if acked && h.outcome != Redeliver then Without(l.commands, j) else l.commands)
  }

  function Run(bots: seq<Bot>, self: UserId, l: Loop, steps: seq<Step>): Loop
    decreases |steps|
  {
    if steps == [] then l else Run(bots, self, Next(bots, self, l, steps[0]), steps[1..])
  }

  /** One event waits, nothing else is going on. */
  function Start(db: Db, trigger: Event, actor: Option<UserId>): Loop {
    Loop(db, [trigger], [], actor, {}, 0, 0)
  }

  lemma {:induction false} RunSplit(bots: seq<Bot>, self: UserId, l: Loop, a: seq<Step>, b: seq<Step>)
    ensures Run(bots, self, l, a + b) == Run(bots, self, Run(bots, self, l, a), b)
    decreases |a|
  {
    if a == [] {
      assert a + b == b;
    } else {
      assert (a + b)[1..] == a[1..] + b;
      RunSplit(bots, self, Next(bots, self, l, a[0]), a[1..], b);
    }
  }
}
