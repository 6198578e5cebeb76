/**
 Group management endpoints: create, add, remove or leave, delete. One call is one step;
 each announces the membership it leaves behind.
 */
module Group {
  import opened Domain

  type Id = nat

  datatype Member = Member(admin: bool, joinedAt: int)

  type Members = map<string, Member>

  datatype Conversation = Conversation(group: bool, deleted: bool, members: Members)

  /** Outbox rows about membership, carrying the roster after the change; a deletion names the ids only. */
  datatype Notice =
    | Created(id: Id, roster: Members)
    | Joined(id: Id, added: seq<string>, roster: Members)
    | Left(id: Id, removed: string, roster: Members)
    | Deleted(id: Id, memberIds: set<string>)

  datatype State = State(users: set<string>, conversations: map<Id, Conversation>, notices: seq<Notice>)

  datatype Request =
    | Create(id: Id, group: bool, createdBy: string, memberIds: seq<string>, now: int)
    | Add(id: Id, actor: string, userIds: seq<string>, now: int)
    | Remove(id: Id, userId: string, actor: string, order: seq<string>)
    | Delete(id: Id, actor: string)

  /** Success, success without a change, or one of the refusals. */
  datatype Response = Done | Absent | BadRequest | Forbidden | NotFound

  datatype Answer = Answer(response: Response, state: State)

  predicate Bot(user: string) {
    "system-bot" <= user
  }

  predicate Distinct(ids: seq<string>) {
    forall i, j :: 0 <= i < j < |ids| ==> ids[i] != ids[j]
  }

  predicate IsAdmin(m: Members, u: string) {
    u in m && m[u].admin
  }

  // ---------- The endpoints ----------

  function Founders(ids: seq<string>, createdBy: string, group: bool, now: int): Members {
    map u | u in ids :: Member(group && u == createdBy, now)
  }

  /** Checks in the controller's order. Database ids are fresh: a used one leaves everything alone. */
  function CreateAnswer(s: State, r: Request): Answer
    requires r.Create?
  {
    if r.createdBy == "" || (exists u :: u in r.memberIds && u == "") || !(2 <= |r.memberIds| <= 50)
      then Answer(BadRequest, s)
    else if r.createdBy !in s.users || (exists u :: u in r.memberIds && u !in s.users) then Answer(NotFound, s)
    else if !Distinct(r.memberIds) || r.createdBy !in r.memberIds then Answer(BadRequest, s)
    else if !r.group && |r.memberIds| != 2 then Answer(NotFound, s)
    else if r.id in s.conversations then Answer(Absent, s)
    else
      var members := Founders(r.memberIds, r.createdBy, r.group, r.now);
      Answer(Done, s.(conversations := s.conversations[r.id := Conversation(r.group, false, members)],
                      notices := s.notices + [Created(r.id, members)]))
  }

  predicate Gone(s: State, id: Id) {
    id !in s.conversations || s.conversations[id].deleted
  }

  function Put(s: State, id: Id, members: Members, notice: Notice): State
    requires id in s.conversations
  {
    s.(conversations := s.conversations[id := s.conversations[id].(members := members)],
       notices := s.notices + [notice])
  }

  /** createMany with skipDuplicates. */
  function Joining(members: Members, ids: seq<string>, now: int): Members {
    members + map u | u in ids && u !in members :: Member(false, now)
  }

  lemma JoiningOneMore(m: Members, ids: seq<string>, u: string, now: int)
    ensures Joining(m, ids + [u], now)
         == if u in Joining(m, ids, now) then Joining(m, ids, now) else Joining(m, ids, now)[u := Member(false, now)]
  {
  }

  function AddAnswer(s: State, r: Request): Answer
    requires r.Add?
  {
    if !(1 <= |r.userIds| <= 50) || (exists u :: u in r.userIds && u == "") || r.actor == "" then Answer(BadRequest, s)
    else if Gone(s, r.id) then Answer(NotFound, s)
    else if !s.conversations[r.id].group then Answer(BadRequest, s)
    else if !IsAdmin(s.conversations[r.id].members, r.actor) then Answer(Forbidden, s)
    else if exists u :: u in r.userIds && u !in s.users then Answer(NotFound, s)
    else
      var members := Joining(s.conversations[r.id].members, r.userIds, r.now);
      Answer(Done, Put(s, r.id, members, Joined(r.id, r.userIds, members)))
  }

  /** find() over the remaining members: the first that is not a bot. */
  function FirstHuman(order: seq<string>): Option<string> {
    if order == [] then None else if !Bot(order[0]) then Some(order[0]) else FirstHuman(order[1..])
  }

  predicate SoleAdmin(m: Members, u: string) {
    IsAdmin(m, u) && forall v :: v in m && m[v].admin ==> v == u
  }

  /** Membership after `u` left, or None when the only admin has no human to succeed it. */
  function Leaving(m: Members, u: string, order: seq<string>): Option<Members> {
    var rest := m - {u};
    if !SoleAdmin(m, u) then Some(rest)
    else
      match FirstHuman(order)
      case None => None
      case Some(heir) => if heir in rest then Some(rest[heir := rest[heir].(admin := true)]) else None
  }

  function RemoveAnswer(s: State, r: Request): Answer
    requires r.Remove?
  {
    if r.actor == "" then Answer(BadRequest, s)
    else if Gone(s, r.id) then Answer(NotFound, s)
    else if !s.conversations[r.id].group then Answer(BadRequest, s)
    else
      var m := s.conversations[r.id].members;
      if r.actor !in m || (r.actor != r.userId && !m[r.actor].admin) then Answer(Forbidden, s)
      else if r.userId !in m then Answer(Absent, s)
      else if |m| == 1 then Answer(BadRequest, s)
      else
        match Leaving(m, r.userId, r.order)
        case None => Answer(BadRequest, s)
        case Some(members) => Answer(Done, Put(s, r.id, members, Left(r.id, r.userId, members)))
  }

  function DeleteAnswer(s: State, r: Request): Answer
    requires r.Delete?
  {
    if r.actor == "" then Answer(BadRequest, s)
    else if Gone(s, r.id) then Answer(Absent, s)
    else if !s.conversations[r.id].group then Answer(BadRequest, s)
    else if !IsAdmin(s.conversations[r.id].members, r.actor) then Answer(Forbidden, s)
    else
      var c := s.conversations[r.id];
      Answer(Done, s.(conversations := s.conversations[r.id := c.(deleted := true)],
                      notices := s.notices + [Deleted(r.id, c.members.Keys)]))
  }

  function Serve(s: State, r: Request): Answer {
    match r
    case Create(_, _, _, _, _) => CreateAnswer(s, r)
    case Add(_, _, _, _) => AddAnswer(s, r)
    case Remove(_, _, _, _) => RemoveAnswer(s, r)
    case Delete(_, _) => DeleteAnswer(s, r)
  }

  /** The remaining members oldest first; rows of one transaction share joinedAt and come in any order. */
  predicate OldestFirst(m: Members, order: seq<string>) {
    && (forall u :: u in order ==> u in m) && (forall u :: u in m ==> u in order)
    && (forall i, j :: 0 <= i < j < |order| && order[i] in m && order[j] in m
         ==> m[order[i]].joinedAt <= m[order[j]].joinedAt)
  }

  /** The database's answer to the succession query is faithful. */
  predicate Truthful(s: State, r: Request) {
    r.Remove? && r.id in s.conversations ==> OldestFirst(s.conversations[r.id].members - {r.userId}, r.order)
  }

  /** The transactions, row by row. */
  class ChatController {
    const users: set<string>
    var conversations: map<Id, Conversation>
    var notices: seq<Notice>

    function Current(): State
      reads this
    {
      State(users, conversations, notices)
    }

    constructor (s: State)
      ensures Current() == s
    {
      users := s.users;
      conversations, notices := s.conversations, s.notices;
    }

    /** createMany row by row, duplicates skipped. */
    method InsertMembers(members: Members, ids: seq<string>, now: int) returns (after: Members)
      ensures after == Joining(members, ids, now)
    {
      after := members;
      for i := 0 to |ids|
        invariant after == Joining(members, ids[..i], now)
      {
        JoiningOneMore(members, ids[..i], ids[i], now);
        assert ids[..i + 1] == ids[..i] + [ids[i]];
        if ids[i] !in after {
          after := after[ids[i] := Member(false, now)];
        }
      }
      assert ids[..|ids|] == ids;
    }

    method CreateConversation(r: Request) returns (response: Response)
      requires r.Create? && r.id !in conversations
      modifies this
      ensures Answer(response, Current()) == CreateAnswer(old(Current()), r)
    {
      if r.createdBy == "" || (exists u :: u in r.memberIds && u == "") || !(2 <= |r.memberIds| <= 50) {
        return BadRequest;
      }
      if r.createdBy !in users || (exists u :: u in r.memberIds && u !in users) {
        return NotFound;
      }
      if !Distinct(r.memberIds) || r.createdBy !in r.memberIds {
        return BadRequest;
      }
      if !r.group && |r.memberIds| != 2 {
        return NotFound;
      }
      var members := Founders(r.memberIds, r.createdBy, r.group, r.now);
      conversations := conversations[r.id := Conversation(r.group, false, members)];
      notices := notices + [Created(r.id, members)];
      return Done;
    }

    method AddMembers(r: Request) returns (response: Response)
      requires r.Add?
      modifies this
      ensures Answer(response, Current()) == AddAnswer(old(Current()), r)
    {
      if !(1 <= |r.userIds| <= 50) || (exists u :: u in r.userIds && u == "") || r.actor == "" {
        return BadRequest;
      }
      if Gone(Current(), r.id) {
        return NotFound;
      }
      if !conversations[r.id].group {
        return BadRequest;
      }
      if !IsAdmin(conversations[r.id].members, r.actor) {
        return Forbidden;
      }
      if exists u :: u in r.userIds && u !in users {
        return NotFound;
      }
      var members := InsertMembers(conversations[r.id].members, r.userIds, r.now);
      conversations := conversations[r.id := conversations[r.id].(members := members)];
      notices := notices + [Joined(r.id, r.userIds, members)];
      return Done;
    }

    method RemoveMember(r: Request) returns (response: Response)
      requires r.Remove? && Truthful(Current(), r)
      modifies this
      ensures Answer(response, Current()) == RemoveAnswer(old(Current()), r)
    {
      if r.actor == "" {
        return BadRequest;
      }
      if Gone(Current(), r.id) {
        return NotFound;
      }
      if !conversations[r.id].group {
        return BadRequest;
      }
      var m := conversations[r.id].members;
      if r.actor !in m {
        return Forbidden;
      }
      if r.actor != r.userId && !m[r.actor].admin {
        return Forbidden;
      }
      if r.userId !in m {
        return Absent;
      }
      if |m| == 1 {
        return BadRequest;
      }
      var rest := m - {r.userId};
      if SoleAdmin(m, r.userId) {
        var k := 0;
        while k < |r.order| && Bot(r.order[k])
          invariant 0 <= k <= |r.order|
          invariant FirstHuman(r.order) == FirstHuman(r.order[k..])
        {
          k := k + 1;
        }
        if k == |r.order| {
          return BadRequest;
        }
        rest := rest[r.order[k] := rest[r.order[k]].(admin := true)];
      }
      conversations := conversations[r.id := conversations[r.id].(members := rest)];
      notices := notices + [Left(r.id, r.userId, rest)];
      return Done;
    }

    method DeleteConversation(r: Request) returns (response: Response)
      requires r.Delete?
      modifies this
      ensures Answer(response, Current()) == DeleteAnswer(old(Current()), r)
    {
      if r.actor == "" {
        return BadRequest;
      }
      if Gone(Current(), r.id) {
        return Absent;
      }
      var c := conversations[r.id];
      if !c.group {
        return BadRequest;
      }
      if !IsAdmin(c.members, r.actor) {
        return Forbidden;
      }
      conversations := conversations[r.id := c.(deleted := true)];
      notices := notices + [Deleted(r.id, c.members.Keys)];
      return Done;
    }
  }

  // ---------- What every run keeps ----------

  function Run(s: State, requests: seq<Request>): State
    decreases |requests|
  {
    if requests == [] then s else Run(Serve(s, requests[0]).state, requests[1..])
  }

  /** Exactly one ADMIN. */
  ghost predicate OneAdmin(m: Members) {
    exists u :: SoleAdmin(m, u)
  }

  /** The last notice about a conversation: what a client of the events goes by. */
  function LastNotice(notices: seq<Notice>, id: Id): Option<Notice>
    decreases |notices|
  {
    if notices == [] then None
    else
      var last := notices[|notices| - 1];
      if last.id == id then Some(last) else LastNotice(notices[..|notices| - 1], id)
  }

  /** It says what the conversation is: its roster with roles, or that it is gone and whose it was. */
  predicate Tells(n: Notice, c: Conversation) {
    if n.Deleted? then c.deleted && n.memberIds == c.members.Keys else !c.deleted && n.roster == c.members
  }

  ghost predicate Inv(s: State) {
    && (forall id | id in s.conversations && s.conversations[id].group :: OneAdmin(s.conversations[id].members))
    && (forall id :: if id in s.conversations
                     then LastNotice(s.notices, id).Some? && Tells(LastNotice(s.notices, id).value, s.conversations[id])
                     else LastNotice(s.notices, id).None?)
  }

  lemma LastNoticeAppend(notices: seq<Notice>, n: Notice, id: Id)
    ensures LastNotice(notices + [n], id) == if n.id == id then Some(n) else LastNotice(notices, id)
  {
  }

  lemma {:induction false} FoundersOneAdmin(ids: seq<string>, createdBy: string, now: int)
    requires createdBy in ids
    ensures OneAdmin(Founders(ids, createdBy, true, now))
  {
    assert SoleAdmin(Founders(ids, createdBy, true, now), createdBy);
  }

  lemma {:induction false} JoiningOneAdmin(m: Members, ids: seq<string>, now: int)
    requires OneAdmin(m)
    ensures OneAdmin(Joining(m, ids, now))
  {
    var u :| SoleAdmin(m, u);
    assert SoleAdmin(Joining(m, ids, now), u);
  }

  lemma {:induction false} LeavingOneAdmin(m: Members, u: string, order: seq<string>)
    requires OneAdmin(m) && u in m && Leaving(m, u, order).Some?
    ensures OneAdmin(Leaving(m, u, order).value)
  {
    var after := Leaving(m, u, order).value;
    var admin :| SoleAdmin(m, admin);
    if admin == u {
      assert SoleAdmin(after, FirstHuman(order).value);
    } else {
      assert SoleAdmin(after, admin);
    }
  }

  lemma {:induction false} ServeKeeps(s: State, r: Request)
    requires Inv(s)
    ensures Inv(Serve(s, r).state)
  {
    var after := Serve(s, r).state;
    if after != s {
      assert after.notices == s.notices + [after.notices[|s.notices|]];
      forall id
        ensures if id in after.conversations
                then LastNotice(after.notices, id).Some?
                     && Tells(LastNotice(after.notices, id).value, after.conversations[id])
                else LastNotice(after.notices, id).None?
      {
        LastNoticeAppend(s.notices, after.notices[|s.notices|], id);
        assert id in s.conversations ==> Tells(LastNotice(s.notices, id).value, s.conversations[id]);
        assert id !in s.conversations ==> LastNotice(s.notices, id).None?;
      }
      match r
      case Create(_, group, createdBy, ids, now) => if group { FoundersOneAdmin(ids, createdBy, now); }
      case Add(id, _, ids, now) => JoiningOneAdmin(s.conversations[id].members, ids, now);
      case Remove(id, u, _, order) => LeavingOneAdmin(s.conversations[id].members, u, order);
      case Delete(_, _) =>
    }
  }

  lemma {:induction false} RunKeeps(s: State, requests: seq<Request>)
    requires Inv(s)
    ensures Inv(Run(s, requests))
    decreases |requests|
  {
    if requests != [] {
      ServeKeeps(s, requests[0]);
      RunKeeps(Serve(s, requests[0]).state, requests[1..]);
    }
  }

  // ---------- Main results ----------

  /**
   Single admin. After any run of calls, every group, live or tombstoned, has exactly one
   ADMIN (so at least one member), and the last notice about a conversation tells its clients
   the truth: its membership with roles, or, for a tombstoned one, that it is gone and its ids.
   */
  lemma {:induction false} SingleAdmin(users: set<string>, requests: seq<Request>, id: Id)
    ensures var s := Run(State(users, map[], []), requests);
      id in s.conversations ==>
        && (s.conversations[id].group ==> OneAdmin(s.conversations[id].members) && s.conversations[id].members != map[])
        && LastNotice(s.notices, id).Some? && Tells(LastNotice(s.notices, id).value, s.conversations[id])
  {
    RunKeeps(State(users, map[], []), requests);
    var s := Run(State(users, map[], []), requests);
    if id in s.conversations && s.conversations[id].group {
      var u :| SoleAdmin(s.conversations[id].members, u);
    }
  }

  /** A call that does not answer Done changes nothing; one that does announces exactly one roster. */
  lemma RefusedChangesNothing(s: State, r: Request)
    ensures var a := Serve(s, r);
      if a.response == Done
      then |a.state.notices| == |s.notices| + 1 && s.notices < a.state.notices
        && a.state.notices[|s.notices|].id == r.id
      else a.state == s
  {
  }

  // ---------- Who gets what done ----------

  /** The conversation is there, a group, and not tombstoned. */
  predicate LiveGroup(s: State, id: Id) {
    id in s.conversations && s.conversations[id].group && !s.conversations[id].deleted
  }

  /** A live group's row as a member sees it. */
  predicate Rules(s: State, id: Id, u: string) {
    LiveGroup(s, id) && u in s.conversations[id].members && s.conversations[id].members[u].admin
  }

  /** Only the members of one conversation differ, and one notice is added. */
  predicate OnlyMembers(s: State, t: State, id: Id, notice: Notice) {
    && id in s.conversations && id in t.conversations
    && t == s.(conversations := s.conversations[id := t.conversations[id]], notices := s.notices + [notice])
    && t.conversations[id] == s.conversations[id].(members := t.conversations[id].members)
  }

  /**
   Adding is done exactly for an ADMIN of a live group naming one to fifty known users. Then every
   one of them is a member, the newcomers without a role since `now`, and no other row changes.
   */
  lemma {:induction false} AddingExactly(s: State, r: Request)
    requires r.Add?
    ensures var a := Serve(s, r);
      && (a.response == Done <==>
            r.actor != "" && Rules(s, r.id, r.actor) && 1 <= |r.userIds| <= 50
            && forall u :: u in r.userIds ==> u != "" && u in s.users)
      && (a.response == Done ==>
            var before, after := s.conversations[r.id].members, a.state.conversations[r.id].members;
            && OnlyMembers(s, a.state, r.id, Joined(r.id, r.userIds, after))
            && (forall u :: u in after <==> u in before || u in r.userIds)
            && (forall u :: u in before ==> after[u] == before[u])
            && (forall u :: u in after && u !in before ==> after[u] == Member(false, r.now)))
      && (a.response == Forbidden ==> LiveGroup(s, r.id) && !Rules(s, r.id, r.actor))
  {
  }

  /**
   Creating is done exactly for two to fifty distinct known users with the creator among them, two
   of them in a DIRECT one, under an unused id. They are the members, and the creator alone is an
   ADMIN, of a group only.
   */
  lemma {:induction false} CreatingExactly(s: State, r: Request)
    requires r.Create?
    ensures var a := Serve(s, r);
      && (a.response == Done <==>
            && r.id !in s.conversations && r.createdBy != "" && r.createdBy in r.memberIds
            && 2 <= |r.memberIds| <= 50 && (r.group || |r.memberIds| == 2)
            && (forall u :: u in r.memberIds ==> u != "" && u in s.users)
            && (forall i, j :: 0 <= i < j < |r.memberIds| ==> r.memberIds[i] != r.memberIds[j]))
      && (a.response == Done ==>
            && r.id in a.state.conversations
            && var c := a.state.conversations[r.id];
            && c.group == r.group && !c.deleted
            && (forall u :: u in c.members <==> u in r.memberIds)
            && (forall u :: u in c.members ==> c.members[u] == Member(r.group && u == r.createdBy, r.now))
            && a.state == s.(conversations := s.conversations[r.id := c],
                             notices := s.notices + [Created(r.id, c.members)]))
  {
  }

  /**
   Deleting is done exactly by an ADMIN of a live group, and leaves the tombstone with its members;
   what is gone already is reported absent to anyone.
   */
  lemma {:induction false} DeletingExactly(s: State, r: Request)
    requires r.Delete?
    ensures var a := Serve(s, r);
      && (a.response == Done <==> r.actor != "" && Rules(s, r.id, r.actor))
      && (a.response == Absent <==> r.actor != "" && (r.id in s.conversations ==> s.conversations[r.id].deleted))
      && (a.response == Done ==>
            var c := s.conversations[r.id];
            a.state == s.(conversations := s.conversations[r.id := Conversation(true, true, c.members)],
                          notices := s.notices + [Deleted(r.id, c.members.Keys)]))
  {
  }

  /**
   Removing is done exactly when someone leaves or an ADMIN removes a member of a live group, others
   stay, and a human among them can take over from the only ADMIN; what happens to the other rows
   is Succession.
   */
  lemma {:induction false} RemovingExactly(s: State, r: Request)
    requires r.Remove? && Truthful(s, r) && Inv(s)
    ensures var a := Serve(s, r);
      && (a.response == Done <==>
            && r.actor != "" && LiveGroup(s, r.id)
            && var m := s.conversations[r.id].members;
            && r.actor in m && r.userId in m && (r.actor == r.userId || m[r.actor].admin) && |m| != 1
            && (m[r.userId].admin ==> exists u :: u in m && u != r.userId && !("system-bot" <= u)))
      && (a.response == Done ==>
            var after := a.state.conversations[r.id].members;
            OnlyMembers(s, a.state, r.id, Left(r.id, r.userId, after))
            && after.Keys == s.conversations[r.id].members.Keys - {r.userId})
      && (a.response == Absent ==> LiveGroup(s, r.id) && r.userId !in s.conversations[r.id].members)
  {
    if LiveGroup(s, r.id) && r.userId in s.conversations[r.id].members {
      var m := s.conversations[r.id].members;
      assert OneAdmin(m);
      var admin :| SoleAdmin(m, admin);
      if |m| >= 2 && r.actor != "" && r.actor in m && (r.actor == r.userId || m[r.actor].admin) {
        Succession(s, r, m);
      }
      assert |m| == 0 ==> m == map[];
    }
  }

  lemma {:induction false} FirstHumanFound(order: seq<string>)
    ensures FirstHuman(order).None? <==> forall u :: u in order ==> Bot(u)
    ensures FirstHuman(order).Some? ==>
      exists k :: 0 <= k < |order| && order[k] == FirstHuman(order).value && !Bot(order[k])
                  && forall j :: 0 <= j < k ==> Bot(order[j])
  {
    if order != [] {
      assert order == [order[0]] + order[1..];
      FirstHumanFound(order[1..]);
      if Bot(order[0]) && FirstHuman(order).Some? {
        var k :| 0 <= k < |order[1..]| && order[1..][k] == FirstHuman(order).value && !Bot(order[1..][k])
                 && forall j :: 0 <= j < k ==> Bot(order[1..][j]);
        assert order[k + 1] == FirstHuman(order).value;
        forall j | 0 <= j < k + 1 ensures Bot(order[j]) { if j > 0 { assert order[j] == order[1..][j - 1]; } }
      }
    }
  }

  predicate Succeeds(m: Members, gone: string, heir: string) {
    heir in m && heir != gone && !Bot(heir)
    && forall v :: v in m && v != gone && !Bot(v) ==> m[heir].joinedAt <= m[v].joinedAt
  }

  /**
   Succession. Removing a member of a live group with company is refused exactly when that
   member is the only admin and every other member is a bot. Otherwise exactly that member
   goes; if it was the admin, the longest-standing human left takes over, and no one else's
   row changes.
   */
  lemma {:induction false} Succession(s: State, r: Request, m: Members)
    requires r.Remove? && Truthful(s, r) && Inv(s)
    requires r.id in s.conversations && s.conversations[r.id].group && !s.conversations[r.id].deleted
    requires m == s.conversations[r.id].members && r.userId in m && 2 <= |m|
    requires r.actor != "" && r.actor in m && (r.actor == r.userId || m[r.actor].admin)
    ensures var a := Serve(s, r);
      && (a.response == Done || a.response == BadRequest)
      && (a.response == BadRequest <==> m[r.userId].admin && forall v :: v in m && v != r.userId ==> Bot(v))
      && (a.response == Done && !m[r.userId].admin ==> a.state.conversations[r.id].members == m - {r.userId})
      && (a.response == Done && m[r.userId].admin ==>
            exists heir :: Succeeds(m, r.userId, heir)
              && a.state.conversations[r.id].members == (m - {r.userId})[heir := m[heir].(admin := true)])
  {
    var admin :| SoleAdmin(m, admin);
    FirstHumanFound(r.order);
    if m[r.userId].admin && FirstHuman(r.order).Some? {
      var k :| 0 <= k < |r.order| && r.order[k] == FirstHuman(r.order).value && !Bot(r.order[k])
               && forall j :: 0 <= j < k ==> Bot(r.order[j]);
      OldestHuman(m, r.userId, r.order, k);
    }
  }

  lemma {:induction false} OldestHuman(m: Members, gone: string, order: seq<string>, k: nat)
    requires OldestFirst(m - {gone}, order) && k < |order| && !Bot(order[k]) && forall j :: 0 <= j < k ==> Bot(order[j])
    ensures Succeeds(m, gone, order[k])
  {
    var rest := m - {gone};
    assert order[k] in rest;
    forall v | v in m && v != gone && !Bot(v) ensures m[order[k]].joinedAt <= m[v].joinedAt {
      assert v in rest && v in order;
      var j :| 0 <= j < |order| && order[j] == v;
      assert j >= k;
    }
  }

  /** Tombstoned groups and DIRECT rows never change their members again. */
  ghost predicate Frozen(a: State, b: State) {
    forall id | id in a.conversations && (a.conversations[id].deleted || !a.conversations[id].group) ::
      id in b.conversations && b.conversations[id] == a.conversations[id]
  }

  lemma ServeFreezes(s: State, r: Request)
    ensures Frozen(s, Serve(s, r).state)
  {
  }

  lemma {:induction false} MembershipFrozen(s: State, requests: seq<Request>)
    ensures Frozen(s, Run(s, requests))
    decreases |requests|
  {
    if requests != [] {
      var next := Serve(s, requests[0]).state;
      ServeFreezes(s, requests[0]);
      MembershipFrozen(next, requests[1..]);
      forall id | id in s.conversations && (s.conversations[id].deleted || !s.conversations[id].group)
        ensures id in Run(s, requests).conversations && Run(s, requests).conversations[id] == s.conversations[id]
      {
        assert next.conversations[id] == s.conversations[id];
      }
    }
  }
}
