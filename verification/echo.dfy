/**
 How far a bot cascade goes. Bot messages carry bot origin and are skipped by bots that do not
 allow them; bot reactions carry user origin and stop only because the worker announces each
 (message, bot, emoji) row once. What matters is which rules a message of a bot can lead to:
 if no set of rules leads back into itself, every message stands on a level, what it leads to
 stands lower, and a price per level pays for the whole cascade in advance.
 */
module Echo {
  import opened Domain
  import opened Authority
  import opened Cascade
  import R = Replay
  import W = Worker

  // ---------- Which rules lead to which messages ----------

  /** A rule by bot and position. */
  type Pick = (nat, nat)

  /** The action can send this text: for some values of placeholders, or as scheduled. */
  ghost predicate CanSay(action: Action, text: string) {
    && Sendable(text)
    && ((action.Say? && exists fill: Fill :: Render(action.template, fill) == text)
        || (action.Schedule? && action.content == text))
  }

  ghost predicate Says(rule: Rule, text: string) {
    exists i :: 0 <= i < |rule.actions| && CanSay(rule.actions[i], text)
  }

  predicate Reacts(rule: Rule) {
    exists i :: 0 <= i < |rule.actions| && rule.actions[i].React?
  }

  /** A bot message with this text triggers the rule. */
  predicate Listens(bots: seq<Bot>, p: Pick, text: string) {
    && InTable(bots, p.0, p.1) && bots[p.0].allowBotMessages
    && match bots[p.0].rules[p.1].trigger
       case OnEvent(event) => event == MESSAGE_CREATED
       case OnCommand(command) => Commands(text, command)
  }

  /** Some rule of any bot answers a reaction with this text. */
  ghost predicate AnswersReactions(bots: seq<Bot>, text: string) {
    exists b: nat, r: nat ::
      InTable(bots, b, r) && bots[b].rules[r].trigger == OnEvent(REACTION_ADDED) && Says(bots[b].rules[r], text)
  }

  /** The rule, once triggered, can bring about a message with this text: itself, or by a reaction that is answered. */
  ghost predicate Leads(bots: seq<Bot>, p: Pick, text: string) {
    && InTable(bots, p.0, p.1)
    && (Says(bots[p.0].rules[p.1], text) || (Reacts(bots[p.0].rules[p.1]) && AnswersReactions(bots, text)))
  }

  /** The rule leads to a message that triggers one of these rules. */
  ghost predicate Continues(bots: seq<Bot>, p: Pick, rules: Picks) {
    exists text, q: Pick :: q in rules && Leads(bots, p, text) && Listens(bots, q, text)
  }

  /** The table echoes: some rules lead back among themselves, each of them. */
  ghost predicate Sustains(bots: seq<Bot>, rules: Picks) {
    rules != {} && forall p {:trigger Continues(bots, p, rules)} | p in rules :: Continues(bots, p, rules)
  }

  ghost predicate Echoes(bots: seq<Bot>) {
    exists rules :: Sustains(bots, rules)
  }

  predicate NoneAllows(bots: seq<Bot>) {
    forall b :: 0 <= b < |bots| ==> !bots[b].allowBotMessages
  }

  // ---------- Levels ----------

  function Table(bots: seq<Bot>): Picks {
    set b: nat, r: nat | b < |bots| && r < |bots[b].rules| :: (b, r)
  }

  /** The rules from which k messages in a row can come about. */
  ghost function Alive(bots: seq<Bot>, k: nat): Picks {
    if k == 0 then Table(bots)
    else
      var before := Alive(bots, k - 1);
      set p | p in before && Continues(bots, p, before)
  }

  /** Whatever a message with this text triggers, fewer than k messages in a row follow. */
  ghost predicate Quiet(bots: seq<Bot>, text: string, k: nat) {
    forall q: Pick :: Listens(bots, q, text) ==> q !in Alive(bots, k)
  }

  /** The least such k up to `top`. */
  ghost function Level(bots: seq<Bot>, text: string, top: nat): (k: nat)
    ensures k <= top
  {
    if top == 0 || !Quiet(bots, text, top - 1) then top else Level(bots, text, top - 1)
  }

  /** No text keeps a cascade going for more than d messages in a row. */
  ghost predicate Settled(bots: seq<Bot>, d: nat) {
    forall text :: Quiet(bots, text, d)
  }

  lemma {:induction false} AliveShrinks(bots: seq<Bot>, j: nat, k: nat)
    requires j <= k
    ensures Alive(bots, k) <= Alive(bots, j)
  {
    if j < k { AliveShrinks(bots, j, k - 1); }
  }

  /** A rule that leads to a message triggering a rule alive at k is alive at k + 1. */
  lemma {:induction false} LeadsToAlive(bots: seq<Bot>, p: Pick, text: string, q: Pick, k: nat)
    requires Leads(bots, p, text) && Listens(bots, q, text) && q in Alive(bots, k)
    ensures p in Alive(bots, k + 1)
  {
    if k > 0 {
      AliveShrinks(bots, k - 1, k);
      LeadsToAlive(bots, p, text, q, k - 1);
    }
    assert Continues(bots, p, Alive(bots, k));
  }

  lemma {:induction false} QuietUp(bots: seq<Bot>, text: string, j: nat, k: nat)
    requires j <= k && Quiet(bots, text, j)
    ensures Quiet(bots, text, k)
  {
    AliveShrinks(bots, j, k);
  }

  lemma {:induction false} LevelQuiet(bots: seq<Bot>, text: string, d: nat)
    requires Quiet(bots, text, d)
    ensures Quiet(bots, text, Level(bots, text, d))
  {
    if d > 0 && Quiet(bots, text, d - 1) { LevelQuiet(bots, text, d - 1); }
  }

  /** The level is no higher than any quiet number. */
  lemma {:induction false} QuietAbove(bots: seq<Bot>, text: string, k: nat, d: nat)
    requires Quiet(bots, text, k)
    ensures Level(bots, text, d) <= k
  {
    if 0 < d {
      QuietAbove(bots, text, k, d - 1);
      if k < d { QuietUp(bots, text, k, d - 1); }
    }
  }

  lemma {:induction false} ListenerInTable(bots: seq<Bot>, text: string, q: Pick)
    requires Listens(bots, q, text)
    ensures !Quiet(bots, text, 0)
  {
    assert q in Alive(bots, 0);
  }

  lemma {:induction false} NextQuiet(bots: seq<Bot>, text: string, q: Pick, next: string, k: nat)
    requires 0 < k && Quiet(bots, text, k) && Listens(bots, q, text) && Leads(bots, q, next)
    ensures Quiet(bots, next, k - 1)
  {
    forall r: Pick | Listens(bots, r, next) ensures r !in Alive(bots, k - 1) {
      if r in Alive(bots, k - 1) { LeadsToAlive(bots, q, next, r, k - 1); }
    }
  }

  /** What a message leads to stands lower than it. */
  lemma {:induction false} LowerLevel(bots: seq<Bot>, text: string, q: Pick, next: string, d: nat)
    requires Settled(bots, d) && Listens(bots, q, text) && Leads(bots, q, next)
    ensures Level(bots, next, d) < Level(bots, text, d)
  {
    ListenedIsUp(bots, text, q, d);
    LevelQuiet(bots, text, d);
    NextQuiet(bots, text, q, next, Level(bots, text, d));
    QuietAbove(bots, next, Level(bots, text, d) - 1, d);
  }

  lemma {:induction false} ListenedIsUp(bots: seq<Bot>, text: string, q: Pick, d: nat)
    requires Settled(bots, d) && Listens(bots, q, text)
    ensures Level(bots, text, d) > 0
  {
    ListenerInTable(bots, text, q);
    LevelQuiet(bots, text, d);
  }

  /** Without an echo the rules alive die out, at least one at a time. */
  lemma {:induction false} AliveDies(bots: seq<Bot>, k: nat)
    requires !Echoes(bots)
    ensures Alive(bots, k) == {} || |Alive(bots, k)| + k <= |Table(bots)|
  {
    var alive := (j: nat) => Alive(bots, j);
    forall j: nat | alive(j) != {} ensures |alive(j + 1)| < |alive(j)| { OneDies(bots, j); }
    forall j: nat ensures alive(j + 1) <= alive(j) { AliveShrinks(bots, j, j + 1); }
    Dwindles(alive, k);
  }

  /** Sets that lose a member each time are empty in the end. */
  lemma {:induction false} Dwindles(sets: nat -> Picks, k: nat)
    requires forall j: nat :: sets(j + 1) <= sets(j) && (sets(j) != {} ==> |sets(j + 1)| < |sets(j)|)
    ensures sets(k) == {} || |sets(k)| + k <= |sets(0)|
  {
    if k > 0 {
      Dwindles(sets, k - 1);
      assert sets(k - 1 + 1) == sets(k);
    }
  }

  lemma {:induction false} OneDies(bots: seq<Bot>, k: nat)
    requires !Echoes(bots) && Alive(bots, k) != {}
    ensures |Alive(bots, k + 1)| < |Alive(bots, k)|
  {
    var p := DeadEnd(bots, Alive(bots, k));
    SubsetSize(Alive(bots, k + 1), Alive(bots, k) - {p});
  }

  lemma {:induction false} DeadEnd(bots: seq<Bot>, rules: Picks) returns (p: Pick)
    requires !Echoes(bots) && rules != {}
    ensures p in rules && !Continues(bots, p, rules)
  {
    assert !Sustains(bots, rules);
    p :| p in rules && !Continues(bots, p, rules);
  }

  lemma {:induction false} EchoFreeSettles(bots: seq<Bot>)
    requires !Echoes(bots)
    ensures Settled(bots, |Table(bots)|)
  {
    AliveDies(bots, |Table(bots)|);
  }

  // ---------- What the engine can publish for an event ----------

  lemma {:induction false} FiredListens(bots: seq<Bot>, e: Event, sender: Option<UserId>, passes: Picks,
      cooling: set<Cooldown>, p: Pick)
    requires BotOrigin(e) && p in Fired(bots, e, sender, passes, cooling)
    ensures Listens(bots, p, e.message.content)
  {
  }

  /** The action behind a published command. */
  lemma {:induction false} IssuedBy(bots: seq<Bot>, self: UserId, e: Event, fired: Picks, draws: Draws, cmd: Command)
    returns (p: Pick)
    requires cmd in EngineCommands(self, bots, |bots|, e, fired, draws)
    ensures p in fired && InTable(bots, p.0, p.1)
    ensures (cmd.BotSend? && cmd.botId == self && Says(bots[p.0].rules[p.1], cmd.data.content))
      || (cmd.AddReaction? && cmd.actor == Some(self) && Some(cmd.messageId) == R.Subject(e)
          && cmd.emoji in Emojis(bots) && Reacts(bots[p.0].rules[p.1]))
  {
    EngineIssues(self, bots, e, fired, draws, cmd);
    var b: nat, r: nat, i: nat :| Issues(self, bots, e, fired, draws, cmd, b, r, i);
    p := (b, r);
    var action := bots[b].rules[r].actions[i];
    if cmd.BotSend? { assert CanSay(action, cmd.data.content); }
  }

  lemma {:induction false} NothingFired(self: UserId, bots: seq<Bot>, n: nat, e: Event, draws: Draws)
    requires n <= |bots|
    ensures EngineCommands(self, bots, n, e, {}, draws) == [] && EngineRuns(bots, n, {}) == 0
  {
    if n != 0 {
      NothingFired(self, bots, n - 1, e, draws);
      QuietBot(self, bots[n - 1].rules, |bots[n - 1].rules|, n - 1, e, {}, draws);
    }
  }

  // ---------- Sums ----------

  ghost function Sum<T(!new)>(s: seq<T>, f: T -> nat): nat
    decreases |s|
  {
    if s == [] then 0 else Sum(s[..|s| - 1], f) + f(s[|s| - 1])
  }

  lemma {:induction false} SumAppend<T(!new)>(a: seq<T>, b: seq<T>, f: T -> nat)
    ensures Sum(a + b, f) == Sum(a, f) + Sum(b, f)
    decreases |b|
  {
    if b == [] {
      assert a + b == a;
    } else {
      assert (a + b)[..|a + b| - 1] == a + b[..|b| - 1];
      SumAppend(a, b[..|b| - 1], f);
    }
  }

  lemma SumOne<T(!new)>(x: T, f: T -> nat)
    ensures Sum([x], f) == f(x)
  {
  }

  lemma {:induction false} SumWithout<T(!new)>(s: seq<T>, i: nat, f: T -> nat)
    requires i < |s|
    ensures Sum(Without(s, i), f) + f(s[i]) == Sum(s, f)
  {
    var a, x, b := s[..i], s[i], s[i + 1..];
    assert s == a + ([x] + b);
    SumAppend(a, [x] + b, f);
    SumAppend([x], b, f);
    SumAppend(a, b, f);
    SumOne(x, f);
  }

  lemma {:induction false} SumMono<T(!new)>(s: seq<T>, f: T -> nat, g: T -> nat)
    requires forall x :: x in s ==> f(x) <= g(x)
    ensures Sum(s, f) <= Sum(s, g)
    decreases |s|
  {
    if s != [] { SumMono(s[..|s| - 1], f, g); }
  }

  /** One place is worth less by at least `gap`, none is worth more. */
  lemma {:induction false} SumGap<T(!new)>(s: seq<T>, f: T -> nat, g: T -> nat, j: nat, gap: nat)
    requires j < |s| && f(s[j]) + gap <= g(s[j]) && forall x :: x in s ==> f(x) <= g(x)
    ensures Sum(s, f) + gap <= Sum(s, g)
  {
    SumWithout(s, j, f);
    SumWithout(s, j, g);
    SumMono(Without(s, j), f, g);
  }

  lemma {:induction false} SumBound<T(!new)>(s: seq<T>, f: T -> nat, bound: nat)
    requires forall x :: x in s ==> f(x) <= bound
    ensures Sum(s, f) <= |s| * bound
    decreases |s|
  {
    if s != [] {
      SumBound(s[..|s| - 1], f, bound);
      assert |s| * bound == (|s| - 1) * bound + bound;
    }
  }

  lemma {:induction false} SumCovers<T(!new)>(s: seq<T>, f: T -> nat)
    requires forall x :: x in s ==> 1 <= f(x)
    ensures |s| <= Sum(s, f)
    decreases |s|
  {
    if s != [] { SumCovers(s[..|s| - 1], f); }
  }

  // ---------- A price for every level ----------

  /** What is counted: events processed, or actions run. */
  datatype Count = Events | Actions

  function Spent(l: Loop, count: Count): nat {
    if count == Events then l.processed else l.actions
  }

  /** What processing one event counts by itself: nothing triggered, or something. */
  datatype Tariff = Tariff(quiet: nat, busy: nat)

  function TariffOf(bots: seq<Bot>, count: Count): Tariff {
    if count == Events then Tariff(1, 1) else Tariff(0, TotalActions(bots))
  }

  /** An event of level k: itself, and one message of the level below for every action. */
  function EventPrice(a: nat, e: nat, t: Tariff, k: nat): nat
    decreases k, 0
  {
    if k == 0 then t.quiet else t.busy + a * MessagePrice(a, e, t, k - 1)
  }

  /** A message of level k: its event and, unless nothing listens, one reaction for every emoji. */
  function MessagePrice(a: nat, e: nat, t: Tariff, k: nat): nat
    decreases k, 1
  {
    if k == 0 then t.quiet else (1 + e) * EventPrice(a, e, t, k)
  }

  lemma ScaleUp(a: nat, k: nat, m: nat)
    requires k <= m
    ensures a * k <= a * m && k * a <= m * a
  {
  }

  lemma {:induction false} PricesGrow(a: nat, e: nat, t: Tariff, j: nat, k: nat)
    requires j <= k && t.quiet <= t.busy
    ensures EventPrice(a, e, t, j) <= EventPrice(a, e, t, k) && MessagePrice(a, e, t, j) <= MessagePrice(a, e, t, k)
    decreases k
  {
    if 0 < j {
      PricesGrow(a, e, t, j - 1, k - 1);
      ScaleUp(a, MessagePrice(a, e, t, j - 1), MessagePrice(a, e, t, k - 1));
      ScaleUp(1 + e, EventPrice(a, e, t, j), EventPrice(a, e, t, k));
    } else if 0 < k {
      ScaleUp(EventPrice(a, e, t, k), 1, 1 + e);
    }
  }

  // ---------- The budget of a cascade ----------

  /** Where a cascade began, and how deep messages can follow each other. */
  datatype Origin = Origin(bots: seq<Bot>, self: UserId, base: Db, trigger: Event, depth: nat)

  ghost function LevelOf(o: Origin, text: string): nat {
    Level(o.bots, text, o.depth)
  }

  function PriceOf(o: Origin, t: Tariff, k: nat): nat {
    EventPrice(TotalActions(o.bots), |Emojis(o.bots)|, t, k)
  }

  function FullPrice(o: Origin, t: Tariff, k: nat): nat {
    MessagePrice(TotalActions(o.bots), |Emojis(o.bots)|, t, k)
  }

  predicate FirstSubject(o: Origin, id: MessageId) {
    R.Subject(o.trigger) == Some(id)
  }

  /** The level of what a message is answered by: top for the one the cascade began with. */
  ghost function SubjectLevel(o: Origin, db: Db, id: MessageId): nat {
    if FirstSubject(o, id) || id !in db.messages then o.depth + 1 else LevelOf(o, db.messages[id].content)
  }

  ghost function EventLevel(o: Origin, db: Db, e: Event): nat {
    if BotOrigin(e) then LevelOf(o, e.message.content)
    else if e.ReactionAdded? then SubjectLevel(o, db, e.messageId) else o.depth + 1
  }

  /** The cascade's own new message with this id has been announced. */
  ghost predicate Announced(o: Origin, db: Db, id: MessageId) {
    exists i :: 0 <= i < |News(o.base, db)| && News(o.base, db)[i].MessageCreated?
      && News(o.base, db)[i].message.id == id
  }

  /** A message that the cascade may react to. */
  ghost predicate Reactive(o: Origin, db: Db, id: MessageId) {
    FirstSubject(o, id)
    || (&& Announced(o, db, id) && id in db.messages
        && exists q: Pick :: Listens(o.bots, q, db.messages[id].content) && Reacts(o.bots[q.0].rules[q.1]))
  }

  ghost predicate EventFine(o: Origin, db: Db, e: Event) {
    || R.Subject(e) == R.Subject(o.trigger)
    || (BotOrigin(e) && Announced(o, db, e.message.id) && e.message.id in db.messages
        && db.messages[e.message.id].content == e.message.content)
    || (e.ReactionAdded? && Reactive(o, db, e.messageId))
  }

  ghost predicate CommandFine(o: Origin, db: Db, cmd: Command) {
    || (cmd.BotSend? && cmd.botId == o.self)
    || (cmd.AddReaction? && cmd.actor == Some(o.self) && cmd.emoji in Emojis(o.bots) && Reactive(o, db, cmd.messageId))
  }

  /** New messages are stored as announced. */
  ghost predicate NewsStored(o: Origin, db: Db) {
    forall i | 0 <= i < |News(o.base, db)| && News(o.base, db)[i].MessageCreated? ::
      var m := News(o.base, db)[i].message; m.id in db.messages && db.messages[m.id].content == m.content
  }

  ghost predicate Confined(o: Origin, l: Loop) {
    && o.base.outbox <= l.db.outbox && NewsStored(o, l.db)
    && (forall e :: e in l.inbox ==> EventFine(o, l.db, e))
    && (forall cmd :: cmd in l.commands ==> CommandFine(o, l.db, cmd))
  }

  /** Rule emojis the bot has not put on a message yet. */
  function Unreacted(o: Origin, db: Db, id: MessageId): set<Emoji> {
    set x | x in Emojis(o.bots) && ReactionKey(id, Reaction(x, o.self)) !in db.reactions
  }

  ghost function EventPricer(o: Origin, t: Tariff, db: Db): Event -> nat {
    (e: Event) => PriceOf(o, t, EventLevel(o, db, e))
  }

  /** A message asked for costs nothing once its id is taken. */
  ghost function CommandPricer(o: Origin, t: Tariff, db: Db): Command -> nat {
    (cmd: Command) =>
      if cmd.BotSend? && !ClientIdTaken(db, cmd.data.clientMessageId)
      then FullPrice(o, t, LevelOf(o, cmd.data.content)) else 0
  }

  /** The reactions still to come on an announced message. */
  ghost function PlacePricer(o: Origin, t: Tariff, db: Db): Event -> nat {
    (e: Event) =>
      if e.MessageCreated? && !FirstSubject(o, e.message.id) && LevelOf(o, e.message.content) > 0
      then |Unreacted(o, db, e.message.id)| * PriceOf(o, t, LevelOf(o, e.message.content)) else 0
  }

  ghost function FirstPlaces(o: Origin, t: Tariff, db: Db): nat {
    if R.Subject(o.trigger).Some?
    then |Unreacted(o, db, R.Subject(o.trigger).value)| * PriceOf(o, t, o.depth + 1) else 0
  }

  ghost function Places(o: Origin, t: Tariff, db: Db): nat {
    FirstPlaces(o, t, db) + Sum(News(o.base, db), PlacePricer(o, t, db))
  }

  /** What was counted and what may still be. */
  ghost function Budget(o: Origin, t: Tariff, l: Loop, count: Count): nat {
    Spent(l, count) + Sum(l.inbox, EventPricer(o, t, l.db)) + Sum(l.commands, CommandPricer(o, t, l.db))
      + Places(o, t, l.db)
  }

  ghost predicate Pays(o: Origin, l: Loop, n: Loop, count: Count) {
    var t := TariffOf(o.bots, count);
    Confined(o, n) && Budget(o, t, n, count) <= Budget(o, t, l, count)
  }

  // ---------- A processed event ----------

  /** A command published for an event is fine, and a message it asks for stands below the event. */
  lemma {:induction false} IssuedFine(o: Origin, db: Db, e: Event, sender: Option<UserId>, passes: Picks,
      cooling: set<Cooldown>, draws: Draws, cmd: Command)
    requires Settled(o.bots, o.depth) && EventFine(o, db, e)
    requires cmd in EngineCommands(o.self, o.bots, |o.bots|, e, Fired(o.bots, e, sender, passes, cooling), draws)
    ensures CommandFine(o, db, cmd)
    ensures cmd.BotSend? ==> LevelOf(o, cmd.data.content) < EventLevel(o, db, e)
  {
    var p := IssuedBy(o.bots, o.self, e, Fired(o.bots, e, sender, passes, cooling), draws, cmd);
    if BotOrigin(e) {
      FiredListens(o.bots, e, sender, passes, cooling, p);
      if cmd.BotSend? { LowerLevel(o.bots, e.message.content, p, cmd.data.content, o.depth); }
    } else if cmd.BotSend? && e.ReactionAdded? && !FirstSubject(o, e.messageId) {
      var text := db.messages[e.messageId].content;
      var q: Pick :| Listens(o.bots, q, text) && Reacts(o.bots[q.0].rules[q.1]);
      assert AnswersReactions(o.bots, cmd.data.content);
      LowerLevel(o.bots, text, q, cmd.data.content, o.depth);
    }
  }

  /** An event of level 0 triggers nothing. */
  lemma {:induction false} LevelZeroQuiet(o: Origin, db: Db, e: Event, sender: Option<UserId>, passes: Picks,
      cooling: set<Cooldown>)
    requires Settled(o.bots, o.depth) && EventFine(o, db, e) && EventLevel(o, db, e) == 0
    ensures Fired(o.bots, e, sender, passes, cooling) == {}
  {
    if BotOrigin(e) {
      forall p ensures p !in Fired(o.bots, e, sender, passes, cooling) {
        if p in Fired(o.bots, e, sender, passes, cooling) {
          FiredListens(o.bots, e, sender, passes, cooling, p);
          ListenedIsUp(o.bots, e.message.content, p, o.depth);
        }
      }
    } else {
      var q: Pick :| Listens(o.bots, q, db.messages[e.messageId].content) && Reacts(o.bots[q.0].rules[q.1]);
      ListenedIsUp(o.bots, db.messages[e.messageId].content, q, o.depth);
    }
  }

  /** What one event asks for costs no more than its price leaves. */
  lemma {:induction false} AskedWithinPrice(o: Origin, t: Tariff, db: Db, e: Event, sender: Option<UserId>,
      passes: Picks, cooling: set<Cooldown>, draws: Draws, count: Count)
    requires Settled(o.bots, o.depth) && EventFine(o, db, e) && t == TariffOf(o.bots, count)
    ensures var fired := Fired(o.bots, e, sender, passes, cooling);
      var asked := Sum(EngineCommands(o.self, o.bots, |o.bots|, e, fired, draws), CommandPricer(o, t, db));
      (if count == Events then 1 else EngineRuns(o.bots, |o.bots|, fired)) + asked
        <= PriceOf(o, t, EventLevel(o, db, e))
  {
    var fired := Fired(o.bots, e, sender, passes, cooling);
    if EventLevel(o, db, e) == 0 {
      LevelZeroQuiet(o, db, e, sender, passes, cooling);
      NothingFired(o.self, o.bots, |o.bots|, e, draws);
    } else {
      RunsWithin(o.bots, |o.bots|, fired);
      AskedBelow(o, t, db, e, sender, passes, cooling, draws);
    }
  }

  /** Every action asks for at most one message of a lower level. */
  lemma {:induction false} AskedBelow(o: Origin, t: Tariff, db: Db, e: Event, sender: Option<UserId>, passes: Picks,
      cooling: set<Cooldown>, draws: Draws)
    requires Settled(o.bots, o.depth) && EventFine(o, db, e) && EventLevel(o, db, e) > 0 && t.quiet <= t.busy
    ensures var fired := Fired(o.bots, e, sender, passes, cooling);
      Sum(EngineCommands(o.self, o.bots, |o.bots|, e, fired, draws), CommandPricer(o, t, db))
      <= TotalActions(o.bots) * FullPrice(o, t, EventLevel(o, db, e) - 1)
  {
    var fired, k := Fired(o.bots, e, sender, passes, cooling), EventLevel(o, db, e);
    var news := EngineCommands(o.self, o.bots, |o.bots|, e, fired, draws);
    var each := FullPrice(o, t, k - 1);
    EngineBounded(o.self, o.bots, |o.bots|, e, fired, draws);
    RunsWithin(o.bots, |o.bots|, fired);
    forall cmd | cmd in news ensures CommandPricer(o, t, db)(cmd) <= each {
      IssuedFine(o, db, e, sender, passes, cooling, draws, cmd);
      if cmd.BotSend? { PricesGrow(TotalActions(o.bots), |Emojis(o.bots)|, t, LevelOf(o, cmd.data.content), k - 1); }
    }
    SumBound(news, CommandPricer(o, t, db), each);
    ScaleUp(each, |news|, TotalActions(o.bots));
  }

  lemma {:induction false} ProcessPays(o: Origin, l: Loop, i: nat, passes: Picks, draws: Draws, count: Count, n: Loop)
    requires Settled(o.bots, o.depth) && Confined(o, l)
    requires i < |l.inbox| && n == Processed(o.bots, o.self, l, i, passes, draws)
    ensures Pays(o, l, n, count)
  {
    var t, e := TariffOf(o.bots, count), l.inbox[i];
    var sender := Sender(e, l.actor);
    var news := EngineCommands(o.self, o.bots, |o.bots|, e, Fired(o.bots, e, sender, passes, l.cooling), draws);
    assert e in l.inbox;
    SumWithout(l.inbox, i, EventPricer(o, t, l.db));
    SumAppend(l.commands, news, CommandPricer(o, t, l.db));
    AskedWithinPrice(o, t, l.db, e, sender, passes, l.cooling, draws, count);
    forall cmd | cmd in news ensures CommandFine(o, l.db, cmd) {
      IssuedFine(o, l.db, e, sender, passes, l.cooling, draws, cmd);
    }
    assert forall x :: x in n.inbox ==> x in l.inbox;
  }

  // ---------- A handled command ----------

  /** What handling such a command does to the database: nothing, one bot message, or one new reaction. */
  lemma {:induction false} HandledEffect(db: Db, cmd: Command, pick: Choice, after: Db)
    requires (cmd.BotSend? || cmd.AddReaction?) && pick.newId !in db.messages && after == W.Handle(db, cmd, pick).db
    ensures after == db || (cmd.BotSend? && Stored(db, cmd, pick.newId, after))
         || (cmd.AddReaction? && Put(db, cmd, after))
  {
    if cmd.BotSend? && after != db {
      assert after.messages[pick.newId].clientMessageId == cmd.data.clientMessageId;
    }
  }

  ghost predicate Stored(db: Db, cmd: Command, id: MessageId, after: Db)
    requires cmd.BotSend?
  {
    && !ClientIdTaken(db, cmd.data.clientMessageId) && ClientIdTaken(after, cmd.data.clientMessageId)
    && after.reactions == db.reactions && id !in db.messages && id in after.messages
    && after.messages == db.messages[id := after.messages[id]]
    && after.messages[id].id == id && after.messages[id].content == cmd.data.content
    && after.messages[id].senderId == cmd.botId && after.messages[id].senderType == BotSender
    && after.outbox == db.outbox + [MessageCreated(after.messages[id])]
  }

  ghost predicate Put(db: Db, cmd: Command, after: Db)
    requires cmd.AddReaction?
  {
    && cmd.actor.Some? && after.messages == db.messages
    && var reaction := Reaction(cmd.emoji, cmd.actor.value);
    && ReactionKey(cmd.messageId, reaction) !in db.reactions
    && after.reactions.Keys == db.reactions.Keys + {ReactionKey(cmd.messageId, reaction)}
    && after.outbox == db.outbox + [ReactionAdded(cmd.conversationId, cmd.messageId, reaction)]
  }

  /** Outstanding commands after one was handled: the same, or all but it. */
  predicate Kept(before: seq<Command>, j: nat, after: seq<Command>)
    requires j < |before|
  {
    after == before || after == Without(before, j)
  }

  lemma {:induction false} KeptSum(before: seq<Command>, j: nat, after: seq<Command>, f: Command -> nat)
    requires j < |before| && Kept(before, j, after)
    ensures Sum(after, f) <= Sum(before, f) && forall cmd :: cmd in after ==> cmd in before
  {
    SumWithout(before, j, f);
  }

  lemma {:induction false} NewsOf(o: Origin, db: Db, e: Event, after: Db)
    requires o.base.outbox <= db.outbox && after.outbox == db.outbox + [e]
    ensures o.base.outbox <= after.outbox && News(o.base, after) == News(o.base, db) + [e] && News(db, after) == [e]
  {
  }

  lemma {:induction false} AnnouncedStays(o: Origin, db: Db, e: Event, after: Db, id: MessageId)
    requires News(o.base, after) == News(o.base, db) + [e] && Announced(o, db, id)
    ensures Announced(o, after, id)
  {
    var i :| 0 <= i < |News(o.base, db)| && News(o.base, db)[i].MessageCreated? && News(o.base, db)[i].message.id == id;
    assert News(o.base, after)[i] == News(o.base, db)[i];
  }

  /** What is true of messages already there stays true, and levels stay. */
  lemma {:induction false} FineStays(o: Origin, db: Db, e: Event, after: Db)
    requires News(o.base, after) == News(o.base, db) + [e]
    requires forall id :: id in db.messages ==> id in after.messages && after.messages[id] == db.messages[id]
    ensures forall id :: Reactive(o, db, id) ==>
      Reactive(o, after, id) && SubjectLevel(o, after, id) == SubjectLevel(o, db, id)
    ensures forall x :: EventFine(o, db, x) ==>
      EventFine(o, after, x) && EventLevel(o, after, x) == EventLevel(o, db, x)
    ensures forall cmd :: CommandFine(o, db, cmd) ==> CommandFine(o, after, cmd)
  {
    forall id | Reactive(o, db, id)
      ensures Reactive(o, after, id) && SubjectLevel(o, after, id) == SubjectLevel(o, db, id)
    {
      if !FirstSubject(o, id) { AnnouncedStays(o, db, e, after, id); }
    }
    forall x | EventFine(o, db, x) ensures EventFine(o, after, x) && EventLevel(o, after, x) == EventLevel(o, db, x) {
      if BotOrigin(x) && R.Subject(x) != R.Subject(o.trigger) { AnnouncedStays(o, db, e, after, x.message.id); }
    }
  }

  lemma {:induction false} InboxSum(o: Origin, t: Tariff, inbox: seq<Event>, db: Db, e: Event, after: Db)
    requires forall x :: x in inbox ==> EventLevel(o, after, x) == EventLevel(o, db, x)
    ensures Sum(inbox + [e], EventPricer(o, t, after))
         <= Sum(inbox, EventPricer(o, t, db)) + PriceOf(o, t, EventLevel(o, after, e))
  {
    SumAppend(inbox, [e], EventPricer(o, t, after));
    SumOne(e, EventPricer(o, t, after));
    SumMono(inbox, EventPricer(o, t, after), EventPricer(o, t, db));
  }

  // ---------- A stored message ----------

  lemma {:induction false} TakenStays(db: Db, after: Db, c: ClientMessageId)
    requires forall id :: id in db.messages ==> id in after.messages && after.messages[id] == db.messages[id]
    ensures ClientIdTaken(db, c) ==> ClientIdTaken(after, c)
  {
    if ClientIdTaken(db, c) {
      var id :| id in db.messages && db.messages[id].clientMessageId == c;
      assert after.messages[id].clientMessageId == c;
    }
  }

  /** Storing a message frees the full price of one. */
  lemma {:induction false} StoredFrees(o: Origin, t: Tariff, commands: seq<Command>, j: nat, id: MessageId, db: Db,
      after: Db, kept: seq<Command>)
    requires j < |commands| && commands[j].BotSend? && Stored(db, commands[j], id, after) && Kept(commands, j, kept)
    ensures Sum(kept, CommandPricer(o, t, after)) + FullPrice(o, t, LevelOf(o, commands[j].data.content))
         <= Sum(commands, CommandPricer(o, t, db))
  {
    forall cmd | cmd in commands ensures CommandPricer(o, t, after)(cmd) <= CommandPricer(o, t, db)(cmd) {
      if cmd.BotSend? { TakenStays(db, after, cmd.data.clientMessageId); }
    }
    KeptSum(commands, j, kept, CommandPricer(o, t, after));
    SumGap(commands, CommandPricer(o, t, after), CommandPricer(o, t, db), j,
           FullPrice(o, t, LevelOf(o, commands[j].data.content)));
  }

  lemma {:induction false} OldPlaces(o: Origin, t: Tariff, db: Db, after: Db)
    requires after.reactions == db.reactions
    ensures FirstPlaces(o, t, after) == FirstPlaces(o, t, db)
    ensures Sum(News(o.base, db), PlacePricer(o, t, after)) <= Sum(News(o.base, db), PlacePricer(o, t, db))
  {
    forall id ensures Unreacted(o, after, id) == Unreacted(o, db, id) {
    }
    forall x | x in News(o.base, db) ensures PlacePricer(o, t, after)(x) <= PlacePricer(o, t, db)(x) {
    }
    SumMono(News(o.base, db), PlacePricer(o, t, after), PlacePricer(o, t, db));
  }

  lemma {:induction false} NewPlace(o: Origin, t: Tariff, db: Db, m: Message)
    ensures PlacePricer(o, t, db)(MessageCreated(m)) + PriceOf(o, t, LevelOf(o, m.content))
         <= FullPrice(o, t, LevelOf(o, m.content))
  {
    if LevelOf(o, m.content) > 0 {
      var price := PriceOf(o, t, LevelOf(o, m.content));
      SubsetSize(Unreacted(o, db, m.id), Emojis(o.bots));
      ScaleUp(price, |Unreacted(o, db, m.id)|, |Emojis(o.bots)|);
      ShareOut(|Emojis(o.bots)|, price);
    }
  }

  /** The reactions on a new message cost what its full price has beyond its event. */
  lemma {:induction false} NewPlaces(o: Origin, t: Tariff, db: Db, m: Message, after: Db)
    requires o.base.outbox <= db.outbox && after.outbox == db.outbox + [MessageCreated(m)]
    requires after.reactions == db.reactions
    ensures Places(o, t, after) + PriceOf(o, t, LevelOf(o, m.content))
         <= Places(o, t, db) + FullPrice(o, t, LevelOf(o, m.content))
  {
    var e := MessageCreated(m);
    NewsOf(o, db, e, after);
    SumAppend(News(o.base, db), [e], PlacePricer(o, t, after));
    SumOne(e, PlacePricer(o, t, after));
    OldPlaces(o, t, db, after);
    NewPlace(o, t, after, m);
  }

  lemma ShareOut(e: nat, price: nat)
    ensures (1 + e) * price == price + e * price
  {
  }

  lemma {:induction false} StoredConfined(o: Origin, l: Loop, j: nat, id: MessageId, n: Loop)
    requires Confined(o, l) && j < |l.commands| && l.commands[j].BotSend? && Stored(l.db, l.commands[j], id, n.db)
    requires n.inbox == l.inbox + News(l.db, n.db) && Kept(l.commands, j, n.commands)
    ensures Confined(o, n)
    ensures forall x :: x in l.inbox ==> EventLevel(o, n.db, x) == EventLevel(o, l.db, x)
  {
    var m := n.db.messages[id];
    NewsOf(o, l.db, MessageCreated(m), n.db);
    FineStays(o, l.db, MessageCreated(m), n.db);
    var news := News(o.base, n.db);
    assert news[|news| - 1] == MessageCreated(m);
    assert Announced(o, n.db, id);
    forall i | 0 <= i < |news| && news[i].MessageCreated?
      ensures news[i].message.id in n.db.messages
      ensures n.db.messages[news[i].message.id].content == news[i].message.content
    {
      if i < |news| - 1 { assert news[i] == News(o.base, l.db)[i]; }
    }
    KeptSum(l.commands, j, n.commands, (_: Command) => 0);
  }

  lemma {:induction false} StoredPays(o: Origin, l: Loop, j: nat, id: MessageId, count: Count, n: Loop)
    requires Confined(o, l) && j < |l.commands| && l.commands[j].BotSend? && Stored(l.db, l.commands[j], id, n.db)
    requires n.inbox == l.inbox + News(l.db, n.db) && Kept(l.commands, j, n.commands)
    requires Spent(n, count) == Spent(l, count)
    ensures Pays(o, l, n, count)
  {
    var t, m := TariffOf(o.bots, count), n.db.messages[id];
    StoredConfined(o, l, j, id, n);
    NewsOf(o, l.db, MessageCreated(m), n.db);
    InboxSum(o, t, l.inbox, l.db, MessageCreated(m), n.db);
    StoredFrees(o, t, l.commands, j, id, l.db, n.db, n.commands);
    NewPlaces(o, t, l.db, m, n.db);
  }

  // ---------- A new reaction ----------

  /** Where the reaction goes, one place is gone; elsewhere none comes. */
  lemma {:induction false} PlaceGone(o: Origin, db: Db, cmd: Command, after: Db, id: MessageId)
    requires cmd.AddReaction? && cmd.actor == Some(o.self) && cmd.emoji in Emojis(o.bots) && Put(db, cmd, after)
    ensures |Unreacted(o, after, id)| + (if id == cmd.messageId then 1 else 0) <= |Unreacted(o, db, id)|
  {
    var x := cmd.emoji;
    if id == cmd.messageId {
      assert Unreacted(o, db, id) == Unreacted(o, after, id) + {x};
    } else {
      SubsetSize(Unreacted(o, after, id), Unreacted(o, db, id));
    }
  }

  lemma Freed(price: nat, after: nat, before: nat, gone: nat)
    requires after + gone <= before
    ensures after * price + gone * price <= before * price
  {
    assert (after + gone) * price == after * price + gone * price;
    ScaleUp(price, after + gone, before);
  }

  /** The pricer of announced messages gives back the price of the reaction's event. */
  lemma {:induction false} PlaceFrees(o: Origin, t: Tariff, db: Db, cmd: Command, after: Db, x: Event)
    requires cmd.AddReaction? && cmd.actor == Some(o.self) && cmd.emoji in Emojis(o.bots) && Put(db, cmd, after)
    ensures PlacePricer(o, t, after)(x) <= PlacePricer(o, t, db)(x)
    ensures x.MessageCreated? && x.message.id == cmd.messageId && !FirstSubject(o, cmd.messageId)
         && LevelOf(o, x.message.content) > 0
      ==> PlacePricer(o, t, after)(x) + PriceOf(o, t, LevelOf(o, x.message.content)) <= PlacePricer(o, t, db)(x)
  {
    if x.MessageCreated? {
      var gone := if x.message.id == cmd.messageId then 1 else 0;
      PlaceGone(o, db, cmd, after, x.message.id);
      Freed(PriceOf(o, t, LevelOf(o, x.message.content)), |Unreacted(o, after, x.message.id)|,
            |Unreacted(o, db, x.message.id)|, gone);
    }
  }

  lemma {:induction false} FirstPlaceFrees(o: Origin, t: Tariff, db: Db, cmd: Command, after: Db)
    requires cmd.AddReaction? && cmd.actor == Some(o.self) && cmd.emoji in Emojis(o.bots) && Put(db, cmd, after)
    ensures FirstPlaces(o, t, after) + (if FirstSubject(o, cmd.messageId) then PriceOf(o, t, o.depth + 1) else 0)
         <= FirstPlaces(o, t, db)
  {
    if R.Subject(o.trigger).Some? {
      var id := R.Subject(o.trigger).value;
      PlaceGone(o, db, cmd, after, id);
      Freed(PriceOf(o, t, o.depth + 1), |Unreacted(o, after, id)|, |Unreacted(o, db, id)|,
            if id == cmd.messageId then 1 else 0);
    }
  }

  /** An announced reactive message stands at its level, and something listens to it. */
  lemma {:induction false} ReactivePlace(o: Origin, db: Db, id: MessageId) returns (i: nat)
    requires Settled(o.bots, o.depth) && NewsStored(o, db) && Reactive(o, db, id) && !FirstSubject(o, id)
    ensures i < |News(o.base, db)| && News(o.base, db)[i].MessageCreated? && News(o.base, db)[i].message.id == id
    ensures LevelOf(o, News(o.base, db)[i].message.content) == SubjectLevel(o, db, id) > 0
  {
    i :| 0 <= i < |News(o.base, db)| && News(o.base, db)[i].MessageCreated? && News(o.base, db)[i].message.id == id;
    var text := db.messages[id].content;
    var q: Pick :| Listens(o.bots, q, text) && Reacts(o.bots[q.0].rules[q.1]);
    ListenedIsUp(o.bots, text, q, o.depth);
  }

  lemma {:induction false} NewsFrees(o: Origin, t: Tariff, db: Db, cmd: Command, after: Db, e: Event)
    requires cmd.AddReaction? && cmd.actor == Some(o.self) && cmd.emoji in Emojis(o.bots) && Put(db, cmd, after)
    requires Settled(o.bots, o.depth) && NewsStored(o, db) && Reactive(o, db, cmd.messageId)
    requires e.ReactionAdded? && News(o.base, after) == News(o.base, db) + [e]
    ensures Sum(News(o.base, after), PlacePricer(o, t, after))
              + (if FirstSubject(o, cmd.messageId) then 0 else PriceOf(o, t, SubjectLevel(o, db, cmd.messageId)))
         <= Sum(News(o.base, db), PlacePricer(o, t, db))
  {
    var news, f, g := News(o.base, db), PlacePricer(o, t, after), PlacePricer(o, t, db);
    SumAppend(news, [e], f);
    SumOne(e, f);
    forall x | x in news ensures f(x) <= g(x) { PlaceFrees(o, t, db, cmd, after, x); }
    if FirstSubject(o, cmd.messageId) {
      SumMono(news, f, g);
    } else {
      var i := ReactivePlace(o, db, cmd.messageId);
      PlaceFrees(o, t, db, cmd, after, news[i]);
      SumGap(news, f, g, i, PriceOf(o, t, SubjectLevel(o, db, cmd.messageId)));
    }
  }

  lemma {:induction false} PutConfined(o: Origin, l: Loop, j: nat, n: Loop)
    requires Confined(o, l) && j < |l.commands| && l.commands[j].AddReaction? && Put(l.db, l.commands[j], n.db)
    requires n.inbox == l.inbox + News(l.db, n.db) && Kept(l.commands, j, n.commands)
    ensures Confined(o, n)
    ensures forall x :: x in l.inbox ==> EventLevel(o, n.db, x) == EventLevel(o, l.db, x)
    ensures SubjectLevel(o, n.db, l.commands[j].messageId) == SubjectLevel(o, l.db, l.commands[j].messageId)
  {
    var cmd := l.commands[j];
    assert CommandFine(o, l.db, cmd);
    var e := ReactionAdded(cmd.conversationId, cmd.messageId, Reaction(cmd.emoji, o.self));
    NewsOf(o, l.db, e, n.db);
    FineStays(o, l.db, e, n.db);
    var news := News(o.base, n.db);
    forall i | 0 <= i < |news| && news[i].MessageCreated?
      ensures news[i].message.id in n.db.messages
      ensures n.db.messages[news[i].message.id].content == news[i].message.content
    {
      assert news[i] == News(o.base, l.db)[i];
    }
    KeptSum(l.commands, j, n.commands, (_: Command) => 0);
  }

  lemma {:induction false} CommandsSame(o: Origin, t: Tariff, commands: seq<Command>, j: nat, db: Db, after: Db,
      kept: seq<Command>)
    requires j < |commands| && Kept(commands, j, kept) && after.messages == db.messages
    ensures Sum(kept, CommandPricer(o, t, after)) <= Sum(commands, CommandPricer(o, t, db))
  {
    forall cmd | cmd in commands ensures CommandPricer(o, t, after)(cmd) <= CommandPricer(o, t, db)(cmd) {
      if cmd.BotSend? { TakenStays(db, after, cmd.data.clientMessageId); }
    }
    KeptSum(commands, j, kept, CommandPricer(o, t, after));
    SumMono(commands, CommandPricer(o, t, after), CommandPricer(o, t, db));
  }

  lemma {:induction false} PutPays(o: Origin, l: Loop, j: nat, count: Count, n: Loop)
    requires Settled(o.bots, o.depth) && Confined(o, l)
    requires j < |l.commands| && l.commands[j].AddReaction? && Put(l.db, l.commands[j], n.db)
    requires n.inbox == l.inbox + News(l.db, n.db) && Kept(l.commands, j, n.commands)
    requires Spent(n, count) == Spent(l, count)
    ensures Pays(o, l, n, count)
  {
    var t, cmd := TariffOf(o.bots, count), l.commands[j];
    assert CommandFine(o, l.db, cmd);
    var e := ReactionAdded(cmd.conversationId, cmd.messageId, Reaction(cmd.emoji, o.self));
    PutConfined(o, l, j, n);
    NewsOf(o, l.db, e, n.db);
    InboxSum(o, t, l.inbox, l.db, e, n.db);
    CommandsSame(o, t, l.commands, j, l.db, n.db, n.commands);
    PlacesFree(o, t, l.db, cmd, n.db, e);
  }

  /** A reaction frees the price of its event. */
  lemma {:induction false} PlacesFree(o: Origin, t: Tariff, db: Db, cmd: Command, after: Db, e: Event)
    requires cmd.AddReaction? && cmd.actor == Some(o.self) && cmd.emoji in Emojis(o.bots) && Put(db, cmd, after)
    requires Settled(o.bots, o.depth) && NewsStored(o, db) && Reactive(o, db, cmd.messageId)
    requires e.ReactionAdded? && News(o.base, after) == News(o.base, db) + [e]
    ensures Places(o, t, after) + PriceOf(o, t, SubjectLevel(o, db, cmd.messageId)) <= Places(o, t, db)
  {
    FirstPlaceFrees(o, t, db, cmd, after);
    NewsFrees(o, t, db, cmd, after, e);
  }

  // ---------- Every run stays within its budget ----------

  lemma {:induction false} HandlePays(o: Origin, l: Loop, j: nat, pick: Choice, acked: bool, count: Count, n: Loop)
    requires Settled(o.bots, o.depth) && Confined(o, l)
    requires j < |l.commands| && pick.newId !in l.db.messages && n == Next(o.bots, o.self, l, Handle(j, pick, acked))
    ensures Pays(o, l, n, count)
  {
    var cmd := l.commands[j];
    assert CommandFine(o, l.db, cmd);
    HandledEffect(l.db, cmd, pick, n.db);
    if n.db == l.db {
      assert n.inbox == l.inbox;
      CommandsSame(o, TariffOf(o.bots, count), l.commands, j, l.db, n.db, n.commands);
      KeptSum(l.commands, j, n.commands, (_: Command) => 0);
    } else if cmd.BotSend? {
      StoredPays(o, l, j, pick.newId, count, n);
    } else {
      PutPays(o, l, j, count, n);
    }
  }

  lemma {:induction false} NextPays(o: Origin, l: Loop, s: Step, count: Count)
    requires Settled(o.bots, o.depth) && Confined(o, l)
    ensures Pays(o, l, Next(o.bots, o.self, l, s), count)
  {
    match s
    case Process(i, passes, draws) =>
      if i < |l.inbox| { ProcessPays(o, l, i, passes, draws, count, Next(o.bots, o.self, l, s)); }
    case Expire(_) =>
    case Handle(j, pick, acked) =>
      if j < |l.commands| && pick.newId !in l.db.messages {
        HandlePays(o, l, j, pick, acked, count, Next(o.bots, o.self, l, s));
      }
  }

  lemma {:induction false} RunPays(o: Origin, l: Loop, steps: seq<Step>, count: Count)
    requires Settled(o.bots, o.depth) && Confined(o, l)
    ensures Pays(o, l, Run(o.bots, o.self, l, steps), count)
    decreases |steps|
  {
    if steps != [] {
      NextPays(o, l, steps[0], count);
      RunPays(o, Next(o.bots, o.self, l, steps[0]), steps[1..], count);
    }
  }

  /** Every emoji on the message the cascade begins with, and none else. */
  lemma {:induction false} StartingPlaces(o: Origin, t: Tariff)
    ensures Places(o, t, o.base) <= |Emojis(o.bots)| * PriceOf(o, t, o.depth + 1)
  {
    assert News(o.base, o.base) == [];
    if R.Subject(o.trigger).Some? {
      var left := Unreacted(o, o.base, R.Subject(o.trigger).value);
      SubsetSize(left, Emojis(o.bots));
      ScaleUp(PriceOf(o, t, o.depth + 1), |left|, |Emojis(o.bots)|);
    } else {
      ScaleUp(PriceOf(o, t, o.depth + 1), 0, |Emojis(o.bots)|);
    }
  }

  function Limit(bots: seq<Bot>, depth: nat, count: Count): nat {
    MessagePrice(TotalActions(bots), |Emojis(bots)|, TariffOf(bots, count), depth + 1)
  }

  /** The budget at the start is the full price of a message of the top level. */
  lemma {:induction false} StartingBudget(o: Origin, actor: Option<UserId>, count: Count)
    ensures Budget(o, TariffOf(o.bots, count), Start(o.base, o.trigger, actor), count) <= Limit(o.bots, o.depth, count)
  {
    var t, top := TariffOf(o.bots, count), o.depth + 1;
    SumOne(o.trigger, EventPricer(o, t, o.base));
    PricesGrow(TotalActions(o.bots), |Emojis(o.bots)|, t, EventLevel(o, o.base, o.trigger), top);
    StartingPlaces(o, t);
    ShareOut(|Emojis(o.bots)|, PriceOf(o, t, top));
  }

  lemma {:induction false} Counted(o: Origin, actor: Option<UserId>, steps: seq<Step>, l: Loop, count: Count)
    requires Settled(o.bots, o.depth) && l == Run(o.bots, o.self, Start(o.base, o.trigger, actor), steps)
    ensures Spent(l, count) + Sum(l.inbox, EventPricer(o, TariffOf(o.bots, count), l.db))
         <= Limit(o.bots, o.depth, count)
  {
    StartingBudget(o, actor, count);
    assert News(o.base, o.base) == [];
    RunPays(o, Start(o.base, o.trigger, actor), steps, count);
  }

  // ---------- The bounds ----------

  /**
   A table in which no text keeps a cascade going for more than `depth` messages in a row answers
   one event, whatever it is and whatever the database holds, within limits that grow by a
   factor A(1 + E) with every level, for A rule actions and E distinct rule emojis: in every
   interleaving of the engine and the worker, whatever conditions hold, placeholders resolve to
   and cooldowns expire, and with commands redelivered at will.
   */
  lemma {:induction false} CascadeBounded(bots: seq<Bot>, self: UserId, db: Db, trigger: Event, actor: Option<UserId>,
      steps: seq<Step>, depth: nat)
    requires Settled(bots, depth)
    ensures var l := Run(bots, self, Start(db, trigger, actor), steps);
      l.processed + |l.inbox| <= Limit(bots, depth, Events) && l.actions <= Limit(bots, depth, Actions)
  {
    var o := Origin(bots, self, db, trigger, depth);
    var l := Run(bots, self, Start(db, trigger, actor), steps);
    Counted(o, actor, steps, l, Events);
    Counted(o, actor, steps, l, Actions);
    InboxCovered(o, l);
  }

  lemma {:induction false} InboxCovered(o: Origin, l: Loop)
    ensures |l.inbox| <= Sum(l.inbox, EventPricer(o, TariffOf(o.bots, Events), l.db))
  {
    var t := TariffOf(o.bots, Events);
    forall e | e in l.inbox ensures 1 <= EventPricer(o, t, l.db)(e) {
      PricesGrow(TotalActions(o.bots), |Emojis(o.bots)|, t, 0, EventLevel(o, l.db, e));
    }
    SumCovers(l.inbox, EventPricer(o, t, l.db));
  }

  /** When no loaded bot allows bot messages, at most A(1 + E) actions run: bot messages trigger nothing. */
  lemma {:induction false} CascadeStops(bots: seq<Bot>, self: UserId, db: Db, trigger: Event, actor: Option<UserId>,
      steps: seq<Step>)
    requires NoneAllows(bots)
    ensures var l := Run(bots, self, Start(db, trigger, actor), steps);
      && l.actions <= TotalActions(bots) * (1 + |Emojis(bots)|)
      && l.processed + |l.inbox| <= (1 + TotalActions(bots)) * (1 + |Emojis(bots)|)
  {
    CascadeBounded(bots, self, db, trigger, actor, steps, 0);
    FirstLimits(bots);
  }

  lemma {:induction false} FirstLimits(bots: seq<Bot>)
    ensures Limit(bots, 0, Events) == (1 + TotalActions(bots)) * (1 + |Emojis(bots)|)
    ensures Limit(bots, 0, Actions) == TotalActions(bots) * (1 + |Emojis(bots)|)
  {
    var a, e := TotalActions(bots), |Emojis(bots)|;
    assert EventPrice(a, e, Tariff(1, 1), 1) == 1 + a * MessagePrice(a, e, Tariff(1, 1), 0);
    assert EventPrice(a, e, Tariff(0, a), 1) == a + a * MessagePrice(a, e, Tariff(0, a), 0);
  }
}
