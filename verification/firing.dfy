/**
 Which rules an event fires, which commands that publishes, and in what order, stated rule by rule
 and apart from how the engine goes through its tables.
 */
module Firing {
  import opened Domain
  import opened Authority
  import opened Cascade
  import R = Replay

  // ---------- Triggers ----------

  /** Every event type names one kind of event. */
  lemma {:induction false} TypesExactly(e: Event)
    ensures EventType(e) == "conversation.created" <==> e.ConversationCreated?
    ensures EventType(e) == "conversation.deleted" <==> e.ConversationDeleted?
    ensures EventType(e) == "message.created" <==> e.MessageCreated?
    ensures EventType(e) == "message.edited" <==> e.MessageEdited?
    ensures EventType(e) == "message.deleted" <==> e.MessageDeleted?
    ensures EventType(e) == "reaction.added" <==> e.ReactionAdded?
    ensures EventType(e) == "reaction.removed" <==> e.ReactionRemoved?
    ensures EventType(e) == "receipt.read" <==> e.ReceiptRead?
    ensures EventType(e) == "receipt.delivered" <==> e.ReceiptDelivered?
  {
    assert "conversation.created"[13] == 'c' && "conversation.deleted"[13] == 'd';
    assert "message.created"[8] == 'c' && "message.deleted"[8] == 'd' && "message.created"[0] == 'm';
    assert "reaction.added"[0] == 'r' && "message.edited"[0] == 'm';
  }

  /** The content opens with a slash and n - 1 characters without a blank, and then ends or goes on with one. */
  predicate FirstWordEnds(content: string, n: nat) {
    && 1 <= n <= |content| && content[0] == '/'
    && (forall k :: 1 <= k < n ==> !Space(content[k]))
    && (n == |content| || Space(content[n]))
  }

  lemma {:induction false} WordEnds(s: string)
    ensures Word(s) <= s && (forall k :: 0 <= k < |Word(s)| ==> !Space(s[k]))
    ensures |Word(s)| == |s| || Space(s[|Word(s)|])
  {
    if s != [] && !Space(s[0]) {
      WordEnds(s[1..]);
      assert s == [s[0]] + s[1..];
      forall k | 0 <= k < |Word(s)| ensures !Space(s[k]) {
        if k > 0 { assert s[k] == s[1..][k - 1]; }
      }
    }
  }

  /** A message is a command exactly when its first word, after the slash, is it up to case. */
  lemma {:induction false} CommandsExactly(content: string, command: string)
    ensures Commands(content, command) <==>
      exists n: nat :: FirstWordEnds(content, n) && |command| == n - 1
        && forall k :: 0 <= k < n - 1 ==> Lower(content[k + 1]) == Lower(command[k])
  {
    if content != [] && content[0] == '/' {
      WordEnds(content[1..]);
      var w := Word(content[1..]);
      assert FirstWordEnds(content, |w| + 1);
      forall n: nat | FirstWordEnds(content, n) ensures n == |w| + 1 {
        assert n < |content| ==> content[1..][n - 1] == content[n];
        assert |w| + 1 < |content| ==> content[1..][|w|] == content[|w| + 1];
      }
      var a, b := LowerCase(w), LowerCase(command);
      if a == b {
        forall k | 0 <= k < |w| ensures Lower(content[k + 1]) == Lower(command[k]) {
          assert a[k] == b[k];
        }
      }
    }
  }

  /** The rule's trigger names the event's type, or the command its message gives. */
  ghost predicate Triggered(rule: Rule, e: Event) {
    match rule.trigger
    case OnEvent(event) => EventType(e) == event
    case OnCommand(command) =>
      && e.MessageCreated?
      && exists n: nat :: FirstWordEnds(e.message.content, n) && |command| == n - 1
           && forall k :: 0 <= k < n - 1 ==> Lower(e.message.content[k + 1]) == Lower(command[k])
  }

  // ---------- Which rules fire ----------

  /**
   A rule fires exactly when its trigger is met, its conditions hold, its bot allows bot messages or the
   event is none, and no cooldown of that rule runs for the user the event is by: the sender, reactor or
   reader, else the envelope's actor. Those cooldowns begin, and no others.
   */
  lemma {:induction false} FiresExactly(bots: seq<Bot>, e: Event, actor: Option<UserId>, passes: Picks,
      cooling: set<Cooldown>, b: nat, r: nat)
    ensures var who := if e.MessageCreated? then Some(e.message.senderId)
                       else if e.ReactionAdded? || e.ReactionRemoved? then Some(e.reaction.userId)
                       else if e.ReceiptRead? || e.ReceiptDelivered? then Some(e.userId) else actor;
      var fired := Fired(bots, e, Sender(e, actor), passes, cooling);
      && ((b, r) in fired <==>
            && b < |bots| && r < |bots[b].rules| && (b, r) in passes && Triggered(bots[b].rules[r], e)
            && (e.MessageCreated? && e.message.senderType == BotSender ==> bots[b].allowBotMessages)
            && Cooldown(b, r, who) !in cooling)
      && (forall key: Cooldown ::
            key in Started(fired, Sender(e, actor)) <==> (key.bot, key.rule) in fired && key.sender == who)
  {
    if e.MessageCreated? && b < |bots| && r < |bots[b].rules| && bots[b].rules[r].trigger.OnCommand? {
      CommandsExactly(e.message.content, bots[b].rules[r].trigger.command);
    }
    var fired := Fired(bots, e, Sender(e, actor), passes, cooling);
    forall key: Cooldown | (key.bot, key.rule) in fired && key.sender == Sender(e, actor)
      ensures key in Started(fired, Sender(e, actor))
    {
      assert key == Cooldown(key.bot, key.rule, Sender(e, actor));
    }
  }

  // ---------- What they publish ----------

  /** A template renders piece by piece, a placeholder to its value. */
  lemma RendersPieces(template: Template, piece: Piece, fill: Fill)
    ensures Render([], fill) == ""
    ensures Render(template + [piece], fill)
      == Render(template, fill) + match piece case Literal(text) => text case Hole => fill(|template|)
  {
  }

  /** Up to ten thousand characters, not all of them blank. */
  predicate Worth(text: string) {
    |text| <= 10_000 && exists i :: 0 <= i < |text| && !Space(text[i])
  }

  /** The message or reaction an action asks the worker for, about the event's conversation and message. */
  predicate Requests(self: UserId, action: Action, draw: Draw, e: Event, cmd: Command) {
    if action.React? then
      R.Subject(e).Some? && cmd == AddReaction(Some(self), R.Home(e), R.Subject(e).value, action.emoji)
    else if action.Internal? then false
    else
      var text := if action.Say? then Render(action.template, draw.fill) else action.content;
      var answers := if action.Say? && action.reply then R.Subject(e) else None;
      && cmd == BotSend(self, SendData(R.Home(e), draw.id, Text, text, answers))
      && Worth(text)
  }

  /** Action i of the fired rule (b, r) asks for the command. */
  predicate Asks(self: UserId, bots: seq<Bot>, e: Event, fired: Picks, draws: Draws, cmd: Command, b: nat, r: nat,
      i: nat) {
    && InTable(bots, b, r) && (b, r) in fired && i < |bots[b].rules[r].actions|
    && Requests(self, bots[b].rules[r].actions[i], draws(b, r, i), e, cmd)
  }

  lemma RequestsExactly(self: UserId, action: Action, draw: Draw, e: Event, cmd: Command)
    ensures cmd in CommandOf(self, action, draw, e) <==> Requests(self, action, draw, e, cmd)
    ensures |CommandOf(self, action, draw, e)| <= 1
  {
    var made := CommandOf(self, action, draw, e);
    match action
    case Say(template, reply) =>
      assert Worth(Render(template, draw.fill)) <==> Sendable(Render(template, draw.fill));
      assert Requests(self, action, draw, e, cmd) <==> made == [cmd];
    case Schedule(content) =>
      assert Worth(content) <==> Sendable(content);
      assert Requests(self, action, draw, e, cmd) <==> made == [cmd];
    case React(emoji) => assert Requests(self, action, draw, e, cmd) <==> made == [cmd];
    case Internal => assert made == [];
  }

  /** What the engine has published before action i of rule r of bot b. */
  function Earlier(self: UserId, bots: seq<Bot>, e: Event, fired: Picks, draws: Draws, b: nat, r: nat,
      i: nat): seq<Command>
    requires InTable(bots, b, r) && i <= |bots[b].rules[r].actions|
  {
    EngineCommands(self, bots, b, e, fired, draws)
    + BotCommands(self, bots[b].rules, r, b, e, fired, draws)
    + RuleCommands(self, bots[b].rules[r].actions, i, b, r, e, draws)
  }

  lemma {:induction false} RulePrefix(self: UserId, actions: seq<Action>, m: nat, n: nat, b: nat, r: nat, e: Event,
      draws: Draws)
    requires m <= n <= |actions|
    ensures RuleCommands(self, actions, m, b, r, e, draws) <= RuleCommands(self, actions, n, b, r, e, draws)
  {
    if m < n { RulePrefix(self, actions, m, n - 1, b, r, e, draws); }
  }

  lemma {:induction false} BotPrefix(self: UserId, rules: seq<Rule>, m: nat, n: nat, b: nat, e: Event, fired: Picks,
      draws: Draws)
    requires m <= n <= |rules|
    ensures BotCommands(self, rules, m, b, e, fired, draws) <= BotCommands(self, rules, n, b, e, fired, draws)
  {
    if m < n { BotPrefix(self, rules, m, n - 1, b, e, fired, draws); }
  }

  lemma {:induction false} EnginePrefix(self: UserId, bots: seq<Bot>, m: nat, n: nat, e: Event, fired: Picks,
      draws: Draws)
    requires m <= n <= |bots|
    ensures EngineCommands(self, bots, m, e, fired, draws) <= EngineCommands(self, bots, n, e, fired, draws)
  {
    if m < n { EnginePrefix(self, bots, m, n - 1, e, fired, draws); }
  }

  lemma PrefixUnder(a: seq<Command>, b: seq<Command>, c: seq<Command>)
    requires b <= c
    ensures a + b <= a + c
  {
  }

  /**
   The commands of an event come bot by bot, rule by rule and action by action: what a fired rule's
   action asks for stands right after everything asked for before it.
   */
  lemma {:induction false} PublishesInOrder(self: UserId, bots: seq<Bot>, e: Event, fired: Picks, draws: Draws,
      cmd: Command, b: nat, r: nat, i: nat)
    requires Asks(self, bots, e, fired, draws, cmd, b, r, i)
    ensures Earlier(self, bots, e, fired, draws, b, r, i) + [cmd]
      <= EngineCommands(self, bots, |bots|, e, fired, draws)
  {
    var rules, actions := bots[b].rules, bots[b].rules[r].actions;
    RequestsExactly(self, actions[i], draws(b, r, i), e, cmd);
    RulePrefix(self, actions, i + 1, |actions|, b, r, e, draws);
    BotPrefix(self, rules, r + 1, |rules|, b, e, fired, draws);
    EnginePrefix(self, bots, b + 1, |bots|, e, fired, draws);
    var ofRule := RuleCommands(self, actions, i, b, r, e, draws);
    var ofBot := BotCommands(self, rules, r, b, e, fired, draws);
    var before := EngineCommands(self, bots, b, e, fired, draws);
    assert RuleCommands(self, actions, i + 1, b, r, e, draws) == ofRule + [cmd];
    PrefixUnder(ofBot, ofRule + [cmd], RuleCommands(self, actions, |actions|, b, r, e, draws));
    PrefixUnder(before, ofBot + (ofRule + [cmd]), BotCommands(self, rules, |rules|, b, e, fired, draws));
    assert before + ofBot + ofRule + [cmd] == before + (ofBot + (ofRule + [cmd]));
  }

  /** And nothing else is published. */
  lemma {:induction false} PublishesExactly(self: UserId, bots: seq<Bot>, e: Event, fired: Picks, draws: Draws,
      cmd: Command)
    ensures cmd in EngineCommands(self, bots, |bots|, e, fired, draws) <==>
      exists b: nat, r: nat, i: nat :: Asks(self, bots, e, fired, draws, cmd, b, r, i)
  {
    EngineIssues(self, bots, e, fired, draws, cmd);
    if b: nat, r: nat, i: nat :| Issues(self, bots, e, fired, draws, cmd, b, r, i) {
      RequestsExactly(self, bots[b].rules[r].actions[i], draws(b, r, i), e, cmd);
      assert Asks(self, bots, e, fired, draws, cmd, b, r, i);
    }
    if b: nat, r: nat, i: nat :| Asks(self, bots, e, fired, draws, cmd, b, r, i) {
      RequestsExactly(self, bots[b].rules[r].actions[i], draws(b, r, i), e, cmd);
      assert Issues(self, bots, e, fired, draws, cmd, b, r, i);
    }
  }

  predicate After(p: (nat, nat), q: (nat, nat)) {
    p.0 < q.0 || (p.0 == q.0 && p.1 < q.1)
  }

  predicate Rising(ids: seq<(nat, nat)>) {
    forall i, j :: 0 <= i < j < |ids| ==> After(ids[i], ids[j])
  }

  lemma {:induction false} BotMatchesFired(rules: seq<Rule>, n: nat, b: nat, fired: Picks)
    requires n <= |rules|
    ensures Rising(BotMatches(rules, n, b, fired))
    ensures forall p :: p in BotMatches(rules, n, b, fired) <==> p.0 == b && p.1 < n && p in fired
  {
    if n != 0 { BotMatchesFired(rules, n - 1, b, fired); }
  }

  /** The matched rules are the fired ones, each once, in the order of the tables. */
  lemma {:induction false} MatchesExactly(bots: seq<Bot>, n: nat, fired: Picks)
    requires n <= |bots|
    ensures Rising(EngineMatches(bots, n, fired))
    ensures forall p :: p in EngineMatches(bots, n, fired) <==> p.0 < n && InTable(bots, p.0, p.1) && p in fired
  {
    if n != 0 {
      MatchesExactly(bots, n - 1, fired);
      BotMatchesFired(bots[n - 1].rules, |bots[n - 1].rules|, n - 1, fired);
    }
  }
}
