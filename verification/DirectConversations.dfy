/**
 * Direct conversations: finding or creating one by its members, and what archiving a user does to them.
 * A row's key stands here for the set of users it names; module ConversationStore keeps the key strings.
 */
module DirectConversations {
  import opened MemberKey

  type ConversationId = nat
  type WorkspaceId = nat

  /** A row: `named` are the users its key names. */
  datatype Conversation = Conversation(workspace: WorkspaceId, named: set<UserId>, members: set<UserId>, active: bool)

  type Rows = map<ConversationId, Conversation>

  /** The users archived so far and the conversation rows by id. */
  datatype Directory = Directory(archived: set<UserId>, rows: Rows)

  // ---------------------------------------------------------------- the operations

  /** Row `id` holds the key that names `users` in the workspace. */
  predicate HoldsKey(rows: Rows, id: ConversationId, workspace: WorkspaceId, users: set<UserId>) {
    id in rows && rows[id].workspace == workspace && rows[id].named == users
  }

  /** Some row other than `except` holds the key. */
  predicate Taken(rows: Rows, workspace: WorkspaceId, users: set<UserId>, except: set<ConversationId>) {
    exists id | id in rows :: id !in except && HoldsKey(rows, id, workspace, users)
  }

  /** What archiving `user` does to one conversation of theirs; `archived` already contains the user. */
  function Detach(d: Directory, user: UserId, id: ConversationId): Directory {
    if id !in d.rows then d else
      var c := d.rows[id];
      var staying := c.members - d.archived;
      if |staying| <= 1 || Taken(d.rows, c.workspace, staying, {id})
      then d.(rows := d.rows[id := c.(active := false)])
      else d.(rows := d.rows[id := c.(named := staying, members := c.members - {user})])
  }

  /** The whole loop, over the given conversations in order. */
  function DetachAll(d: Directory, user: UserId, ids: seq<ConversationId>): Directory
    decreases |ids|
  {
    if ids == [] then d else DetachAll(Detach(d, user, ids[0]), user, ids[1..])
  }

  function ConversationsOf(d: Directory, user: UserId): set<ConversationId> {
    set id | id in d.rows && user in d.rows[id].members
  }

  /** `order` lists the user's conversations by increasing id, as a batched loop visits them. */
  predicate VisitOrder(d: Directory, user: UserId, order: seq<ConversationId>) {
    Increasing(order) && ToSet(order) == ConversationsOf(d, user)
  }

  function Mark(d: Directory, user: UserId): Directory {
    d.(archived := d.archived + {user})
  }

  /** Archiving a user. */
  function Archive(d: Directory, user: UserId, order: seq<ConversationId>): Directory {
    DetachAll(Mark(d, user), user, order)
  }

  /** Find-or-create: reactivates row `id` when it holds the key, and otherwise inserts it. */
  function Ensure(d: Directory, workspace: WorkspaceId, users: set<UserId>, id: ConversationId): Directory {
    if id in d.rows then d.(rows := d.rows[id := d.rows[id].(active := true)])
    else d.(rows := d.rows[id := Conversation(workspace, users, users, true)])
  }

  /** The row that find-or-create answers: the one that holds the key, or a new id when there is none. */
  predicate Answers(d: Directory, workspace: WorkspaceId, users: set<UserId>, id: ConversationId) {
    HoldsKey(d.rows, id, workspace, users) || (id !in d.rows && !Taken(d.rows, workspace, users, {}))
  }

  // ---------------------------------------------------------------- the invariant

  /** (workspace, key) identifies a row. */
  predicate UniqueKeys(rows: Rows) {
    forall i, j | i in rows && j in rows && i != j :: rows[i].workspace != rows[j].workspace || rows[i].named != rows[j].named
  }

  /** Keys are unique and name members, and the key of an active conversation names only unarchived users. */
  predicate Valid(d: Directory) {
    && UniqueKeys(d.rows)
    && (forall id | id in d.rows :: d.rows[id].named <= d.rows[id].members)
    && (forall id | id in d.rows && d.rows[id].active :: d.rows[id].named !! d.archived)
  }

  /** What holds inside the loop: only conversations still pending may be active with the user as a member. */
  predicate ValidExcept(d: Directory, user: UserId, pending: set<ConversationId>) {
    && UniqueKeys(d.rows)
    && user in d.archived
    && (forall id | id in d.rows :: d.rows[id].named <= d.rows[id].members)
    && (forall id | id in d.rows && d.rows[id].active :: d.rows[id].named * d.archived <= {user})
    && (forall id | id in d.rows && d.rows[id].active && user in d.rows[id].members :: id in pending)
  }

  /** Every iteration keeps the loop invariant and settles one conversation. */
  lemma DetachKeeps(d: Directory, user: UserId, id: ConversationId, pending: set<ConversationId>)
    requires ValidExcept(d, user, pending)
    ensures ValidExcept(Detach(d, user, id), user, pending - {id})
    ensures Detach(d, user, id).archived == d.archived && Detach(d, user, id).rows.Keys == d.rows.Keys
    ensures forall other | other in d.rows && other != id :: Detach(d, user, id).rows[other] == d.rows[other]
  {
    if id in d.rows {
      var c, after := d.rows[id], Detach(d, user, id);
      var staying := c.members - d.archived;
      if after.rows[id].active && c.named != after.rows[id].named {
        assert !Taken(d.rows, c.workspace, staying, {id});
      }
      UniqueAfter(d.rows, id, after.rows[id]);
    }
  }

  /** Changing one row keeps keys unique if its key is kept or new. */
  lemma UniqueAfter(rows: Rows, id: ConversationId, c: Conversation)
    requires UniqueKeys(rows) && id in rows && c.workspace == rows[id].workspace
    requires c.named == rows[id].named || !Taken(rows, c.workspace, c.named, {id})
    ensures UniqueKeys(rows[id := c])
  {
    forall j | j in rows && j != id ensures rows[j].workspace != c.workspace || rows[j].named != c.named {
      assert c.named != rows[id].named ==> !HoldsKey(rows, j, c.workspace, c.named);
    }
  }

  lemma {:induction false} DetachAllKeeps(d: Directory, user: UserId, ids: seq<ConversationId>)
    requires ValidExcept(d, user, ToSet(ids))
    ensures ValidExcept(DetachAll(d, user, ids), user, {})
    ensures DetachAll(d, user, ids).archived == d.archived && DetachAll(d, user, ids).rows.Keys == d.rows.Keys
    ensures forall id | id in d.rows && id !in ids :: DetachAll(d, user, ids).rows[id] == d.rows[id]
    decreases |ids|
  {
    if ids == [] {
      assert ToSet(ids) == {};
    } else {
      DetachKeeps(d, user, ids[0], ToSet(ids));
      var next := Detach(d, user, ids[0]);
      assert ToSet(ids) - {ids[0]} <= ToSet(ids[1..]);
      assert ValidExcept(next, user, ToSet(ids[1..]));
      DetachAllKeeps(next, user, ids[1..]);
    }
  }

  lemma DisjointUnless(a: set<UserId>, b: set<UserId>, user: UserId)
    requires a * b <= {user} && user !in a
    ensures a !! b
  {
    assert forall x | x in a && x in b :: x in a * b;
  }

  /** Archiving keeps the invariant, leaves other conversations alone, and takes the user out of every active one. */
  lemma ArchiveKeeps(d: Directory, user: UserId, order: seq<ConversationId>)
    requires Valid(d) && VisitOrder(d, user, order)
    ensures Valid(Archive(d, user, order))
    ensures Archive(d, user, order).archived == d.archived + {user} && Archive(d, user, order).rows.Keys == d.rows.Keys
    ensures forall id | id in d.rows && user !in d.rows[id].members :: Archive(d, user, order).rows[id] == d.rows[id]
    ensures forall id | id in d.rows && user in Archive(d, user, order).rows[id].members :: !Archive(d, user, order).rows[id].active
  {
    assert ValidExcept(Mark(d, user), user, ToSet(order));
    DetachAllKeeps(Mark(d, user), user, order);
    var after := Archive(d, user, order);
    forall id | id in after.rows && after.rows[id].active ensures after.rows[id].named !! after.archived {
      DisjointUnless(after.rows[id].named, after.archived, user);
    }
    forall id | id in d.rows && user !in d.rows[id].members ensures id !in order {
      assert id !in ToSet(order);
    }
  }

  // ---------------------------------------------------------------- which conversations survive an archive

  /** A conversation of the user after it lost them: keyed by the members who stay. */
  function Rekeyed(d: Directory, user: UserId, id: ConversationId): Conversation
    requires id in d.rows
  {
    var c := d.rows[id];
    c.(named := c.members - d.archived, members := c.members - {user})
  }

  /** A row during the loop: as it was before, archived, or keyed by the members who stay. */
  predicate Outcome(before: Directory, d: Directory, user: UserId, id: ConversationId)
    requires id in before.rows && id in d.rows
  {
    d.rows[id] in {before.rows[id], before.rows[id].(active := false), Rekeyed(before, user, id)}
  }

  /** No other conversation of the workspace has, or may get, the key that this one needs. */
  predicate NoClash(d: Directory, id: ConversationId)
    requires id in d.rows
  {
    forall other | other in d.rows && other != id && d.rows[other].workspace == d.rows[id].workspace ::
      && d.rows[other].named != d.rows[id].members - d.archived
      && d.rows[other].members - d.archived != d.rows[id].members - d.archived
  }

  ghost predicate Midway(before: Directory, d: Directory, user: UserId, ids: seq<ConversationId>) {
    && d.archived == before.archived && d.rows.Keys == before.rows.Keys
    && Increasing(ids)
    && (forall id | id in d.rows :: Outcome(before, d, user, id))
    && (forall id | id in ids :: id in d.rows && d.rows[id] == before.rows[id])
  }

  lemma DetachOutcome(before: Directory, d: Directory, user: UserId, ids: seq<ConversationId>)
    requires ids != [] && Midway(before, d, user, ids)
    ensures Midway(before, Detach(d, user, ids[0]), user, ids[1..])
    ensures var c, staying := before.rows[ids[0]], before.rows[ids[0]].members - before.archived;
            && (|staying| <= 1 ==> Detach(d, user, ids[0]).rows[ids[0]] == c.(active := false))
            && (|staying| > 1 && NoClash(before, ids[0]) ==> Detach(d, user, ids[0]).rows[ids[0]] == Rekeyed(before, user, ids[0]))
            && Detach(d, user, ids[0]).rows[ids[0]] in {c.(active := false), Rekeyed(before, user, ids[0])}
  {
  }

  /** How one conversation of the user ends up. */
  ghost predicate Settled(before: Directory, after: Directory, user: UserId, id: ConversationId)
    requires id in before.rows && id in after.rows
  {
    var c := before.rows[id];
    var staying := c.members - before.archived;
    && after.rows[id] in {c.(active := false), Rekeyed(before, user, id)}
    && (|staying| <= 1 ==> after.rows[id] == c.(active := false))
    && (|staying| > 1 && NoClash(before, id) ==> after.rows[id] == Rekeyed(before, user, id))
  }

  lemma {:induction false} DetachAllOutcome(before: Directory, d: Directory, user: UserId, ids: seq<ConversationId>)
    requires Midway(before, d, user, ids)
    ensures DetachAll(d, user, ids).rows.Keys == before.rows.Keys
    ensures forall id | id in ids :: id in before.rows && Settled(before, DetachAll(d, user, ids), user, id)
    ensures forall id | id in d.rows && id !in ids :: DetachAll(d, user, ids).rows[id] == d.rows[id]
    decreases |ids|
  {
    if ids != [] {
      DetachOutcome(before, d, user, ids);
      var next := Detach(d, user, ids[0]);
      DetachAllOutcome(before, next, user, ids[1..]);
      assert ids[0] !in ids[1..];
      forall id | id in ids ensures id in before.rows && Settled(before, DetachAll(d, user, ids), user, id) {
        assert id == ids[0] || id in ids[1..];
      }
    }
  }

  /**
   * Every conversation of the archived user is archived as it stands or keeps its status without the user, keyed by
   * those who stay. The first happens whenever at most one member stays, the second whenever more do and no key clashes.
   */
  lemma ArchiveSettles(d: Directory, user: UserId, order: seq<ConversationId>)
    requires VisitOrder(d, user, order)
    ensures Archive(d, user, order).rows.Keys == d.rows.Keys
    ensures forall id | id in ConversationsOf(d, user) :: Settled(Mark(d, user), Archive(d, user, order), user, id)
  {
    forall id | id in order ensures id in d.rows {
      assert id in ToSet(order);
    }
    DetachAllOutcome(Mark(d, user), Mark(d, user), user, order);
    forall id | id in ConversationsOf(d, user) ensures id in order {
      assert id in ToSet(order);
    }
  }

  /** Find-or-create keeps the invariant, and its answer is an active conversation keyed by exactly these users. */
  lemma EnsureKeeps(d: Directory, workspace: WorkspaceId, users: set<UserId>, id: ConversationId)
    requires Valid(d) && users !! d.archived && Answers(d, workspace, users, id)
    ensures Valid(Ensure(d, workspace, users, id))
    ensures var after := Ensure(d, workspace, users, id);
            HoldsKey(after.rows, id, workspace, users) && after.rows[id].active && users <= after.rows[id].members
  {
  }

  /** There is always exactly one answer, up to the choice of a new id. */
  lemma AnswerUnique(d: Directory, workspace: WorkspaceId, users: set<UserId>, i: ConversationId, j: ConversationId)
    requires Valid(d) && Answers(d, workspace, users, i) && Answers(d, workspace, users, j)
    ensures i == j || (i !in d.rows && j !in d.rows)
  {
  }

  // ---------------------------------------------------------------- whole runs

  datatype Op =
    | FindOrCreateOp(workspace: WorkspaceId, users: set<UserId>, id: ConversationId)
    | ArchiveOp(user: UserId, order: seq<ConversationId>)
    | UnarchiveOp(user: UserId)

  /** The operation is one that can happen: users to talk to are unarchived, and the loop visits what it should. */
  predicate Enabled(d: Directory, op: Op) {
    match op
    case FindOrCreateOp(workspace, users, id) => users != {} && users !! d.archived && Answers(d, workspace, users, id)
    case ArchiveOp(user, order) => VisitOrder(d, user, order)
    case UnarchiveOp(_) => true
  }

  function Apply(d: Directory, op: Op): Directory {
    match op
    case FindOrCreateOp(workspace, users, id) => Ensure(d, workspace, users, id)
    case ArchiveOp(user, order) => Archive(d, user, order)
    case UnarchiveOp(user) => d.(archived := d.archived - {user})
  }

  /** Unarchiving takes the mark off this user alone, whom conversations can then be found for again, and changes no conversation. */
  lemma UnarchiveLifts(d: Directory, user: UserId, other: UserId)
    ensures var after := Apply(d, UnarchiveOp(user));
            && Run(d, [UnarchiveOp(user)]) == after
            && user !in after.archived && (other != user ==> (other in after.archived <==> other in d.archived)) && after.rows == d.rows
  {
    assert [UnarchiveOp(user)][1..] == [];
  }

  /** Operations that cannot happen are skipped. */
  function Run(d: Directory, ops: seq<Op>): Directory
    decreases |ops|
  {
    if ops == [] then d else Run(if Enabled(d, ops[0]) then Apply(d, ops[0]) else d, ops[1..])
  }

  lemma {:induction false} RunKeeps(d: Directory, ops: seq<Op>)
    requires Valid(d)
    ensures Valid(Run(d, ops))
    decreases |ops|
  {
    if ops != [] {
      var next := if Enabled(d, ops[0]) then Apply(d, ops[0]) else d;
      if Enabled(d, ops[0]) {
        match ops[0] {
          case FindOrCreateOp(workspace, users, id) => EnsureKeeps(d, workspace, users, id);
          case ArchiveOp(user, order) => ArchiveKeeps(d, user, order);
          case UnarchiveOp(_) =>
        }
      }
      RunKeeps(next, ops[1..]);
    }
  }

  /** Over any run from an empty directory: keys stay unique, name members, and name only unarchived users when active. */
  lemma IdentitySafety(archived: set<UserId>, ops: seq<Op>)
    ensures Valid(Run(Directory(archived, map[]), ops))
  {
    RunKeeps(Directory(archived, map[]), ops);
  }

  // ---------------------------------------------------------------- archived members of active conversations

  /** No archived user is a member of an active conversation. */
  predicate Detached(d: Directory) {
    forall id | id in d.rows && d.rows[id].active :: d.rows[id].members !! d.archived
  }

  predicate DetachedExcept(d: Directory, user: UserId) {
    forall id | id in d.rows && d.rows[id].active :: d.rows[id].members * d.archived <= {user}
  }

  lemma {:induction false} DetachAllDetached(d: Directory, user: UserId, ids: seq<ConversationId>)
    requires DetachedExcept(d, user)
    ensures DetachedExcept(DetachAll(d, user, ids), user)
    decreases |ids|
  {
    if ids != [] {
      DetachAllDetached(Detach(d, user, ids[0]), user, ids[1..]);
    }
  }

  /** Archiving and unarchiving preserve this stronger property. */
  lemma ArchiveStaysDetached(d: Directory, user: UserId, order: seq<ConversationId>)
    requires Valid(d) && Detached(d) && VisitOrder(d, user, order)
    ensures Detached(Archive(d, user, order)) && Detached(d.(archived := d.archived - {user}))
  {
    DetachAllDetached(Mark(d, user), user, order);
    ArchiveKeeps(d, user, order);
    var after := Archive(d, user, order);
    forall id | id in after.rows && after.rows[id].active ensures after.rows[id].members !! after.archived {
      DisjointUnless(after.rows[id].members, after.archived, user);
    }
  }

  /** Find-or-create preserves it exactly when the conversation it answers was created now or has no archived member. */
  lemma EnsureDetachedIff(d: Directory, workspace: WorkspaceId, users: set<UserId>, id: ConversationId)
    requires Detached(d) && users !! d.archived
    ensures Detached(Ensure(d, workspace, users, id)) <==> (id in d.rows ==> d.rows[id].members !! d.archived)
  {
    var after := Ensure(d, workspace, users, id);
    assert after.rows[id].active;
  }

  // The failing case is reachable: after archiving 1 and then 2, the conversation of 1, 2, 3 and 4 has taken the
  // key of 3 and 4 while still having 1 as a member, and find-or-create for 3 and 4 brings it back.

  const ALL := Conversation(0, {1, 2, 3, 4}, {1, 2, 3, 4}, true)
  const SOME := Conversation(0, {2, 3, 4}, {2, 3, 4}, true)
  const MOVED := Conversation(0, {3, 4}, {1, 3, 4}, false)

  const CREATED := Directory({}, map[0 := ALL, 1 := SOME])
  const WITHOUT_1 := Directory({1}, map[0 := ALL.(active := false), 1 := SOME])
  const WITHOUT_1_2 := Directory({1, 2}, map[0 := MOVED, 1 := SOME.(active := false)])

  lemma RunFirst(d: Directory, op: Op, rest: seq<Op>, next: Directory)
    requires Enabled(d, op) && Apply(d, op) == next
    ensures Run(d, [op] + rest) == Run(next, rest)
  {
  }

  lemma ReturnsAfterBoth() returns (ops: seq<Op>)
    ensures !Detached(Run(WITHOUT_1_2, ops))
  {
    var op := FindOrCreateOp(0, {3, 4}, 0);
    var after := Ensure(WITHOUT_1_2, 0, {3, 4}, 0);
    assert HoldsKey(WITHOUT_1_2.rows, 0, 0, {3, 4});
    assert after.rows[0].active && 1 in after.rows[0].members && 1 in after.archived;
    ops := [op] + [];
    RunFirst(WITHOUT_1_2, op, [], after);
  }

  lemma ArchiveTwo()
    ensures VisitOrder(WITHOUT_1, 2, [0, 1]) && Archive(WITHOUT_1, 2, [0, 1]) == WITHOUT_1_2
  {
    var m := Mark(WITHOUT_1, 2);
    assert m.archived == {1, 2};
    assert ALL.members - m.archived == {3, 4} && ALL.members - {2} == {1, 3, 4};
    assert |{3, 4}| == 2;
    assert !Taken(m.rows, 0, {3, 4}, {0}) by { assert 2 in SOME.named; }
    var n := Directory({1, 2}, map[0 := MOVED, 1 := SOME]);
    assert Detach(m, 2, 0) == n;
    assert SOME.members - n.archived == {3, 4};
    assert HoldsKey(n.rows, 0, 0, {3, 4});
    assert Detach(n, 2, 1) == WITHOUT_1_2;
    assert [0, 1][1..] == [1] && [1][1..] == [];
  }

  lemma ArchiveOne()
    ensures VisitOrder(CREATED, 1, [0]) && Archive(CREATED, 1, [0]) == WITHOUT_1
  {
    var m := Mark(CREATED, 1);
    assert ALL.members - m.archived == {2, 3, 4};
    assert HoldsKey(m.rows, 1, 0, {2, 3, 4});
    assert Detach(m, 1, 0) == WITHOUT_1;
    assert [0][1..] == [];
  }

  lemma ReturnsAfterCreation() returns (ops: seq<Op>)
    ensures !Detached(Run(CREATED, ops))
  {
    ops := ReturnsAfterBoth();
    ArchiveTwo();
    RunFirst(WITHOUT_1, ArchiveOp(2, [0, 1]), ops, WITHOUT_1_2);
    ops := [ArchiveOp(2, [0, 1])] + ops;
    ArchiveOne();
    RunFirst(CREATED, ArchiveOp(1, [0]), ops, WITHOUT_1);
    ops := [ArchiveOp(1, [0])] + ops;
  }

  /** Some run from an empty directory ends with an archived member in an active conversation. */
  lemma ArchivedMemberReturns() returns (ops: seq<Op>)
    ensures !Detached(Run(Directory({}, map[]), ops))
  {
    ops := ReturnsAfterCreation();
    var first, second := FindOrCreateOp(0, {1, 2, 3, 4}, 0), FindOrCreateOp(0, {2, 3, 4}, 1);
    var one := Directory({}, map[0 := ALL]);
    assert Enabled(one, second) && Apply(one, second) == CREATED by {
      assert 1 !in SOME.named;
    }
    RunFirst(one, second, ops, CREATED);
    ops := [second] + ops;
    RunFirst(Directory({}, map[]), first, ops, one);
    ops := [first] + ops;
  }
}
