/** The conversation rows with their key strings, updated in place. */
module ConversationStore {
  import opened Options
  import opened MemberKey
  import D = DirectConversations

  datatype Row = Row(workspace: D.WorkspaceId, key: string, members: set<UserId>, active: bool)

  /** A key that `MemberKeyFor` could have made. */
  predicate Canonical(key: string) {
    key != "" && Increasing(Parse(key)) && Join(Parse(key)) == key
  }

  function Abstract(row: Row): D.Conversation {
    D.Conversation(row.workspace, KeyIds(row.key), row.members, row.active)
  }

  /** Canonical keys are equal exactly when they name the same users. */
  lemma CanonicalEqual(k: string, l: string)
    requires Canonical(k) && Canonical(l)
    ensures k == l <==> KeyIds(k) == KeyIds(l)
  {
    if KeyIds(k) == KeyIds(l) {
      IncreasingUnique(Parse(k), Parse(l));
    }
  }

  lemma MadeKeyIsCanonical(ids: seq<UserId>)
    requires ids != []
    ensures Canonical(MemberKeyFor(ids)) && KeyIds(MemberKeyFor(ids)) == ToSet(ids)
  {
    SortUniq(ids);
    ParseJoin(Sort(Uniq(ids)));
    KeyNames(ids);
  }

  function AbstractRows(rows: map<D.ConversationId, Row>): D.Rows {
    map id | id in rows :: Abstract(rows[id])
  }

  lemma AbstractUpdate(rows: map<D.ConversationId, Row>, id: D.ConversationId, row: Row)
    ensures AbstractRows(rows[id := row]) == AbstractRows(rows)[id := Abstract(row)]
  {
  }

  /** Makes the key of a non-empty list of users. */
  method MakeKey(ids: seq<UserId>) returns (key: string)
    requires ids != []
    ensures Canonical(key) && KeyIds(key) == ToSet(ids)
  {
    MadeKeyIsCanonical(ids);
    key := MemberKeyFor(ids);
  }

  /** The elements of a set in increasing order. */
  method Ascending(ids: set<nat>) returns (listed: seq<nat>)
    ensures Increasing(listed) && ToSet(listed) == ids
  {
    var pending := ids;
    listed := [];
    while pending != {}
      invariant ToSet(listed) + pending == ids
      decreases |pending|
    {
      var id :| id in pending;
      assert ToSet(listed + [id]) == ToSet(listed) + {id};
      pending, listed := pending - {id}, listed + [id];
    }
    SortUniq(listed);
    listed := Sort(Uniq(listed));
  }

  class Store {
    var archived: set<UserId>
    var rows: map<D.ConversationId, Row>

    function Contents(): D.Directory
      reads this
    {
      D.Directory(archived, AbstractRows(rows))
    }

    predicate Keyed()
      reads this
    {
      forall id | id in rows :: Canonical(rows[id].key)
    }

    /** The row of the workspace with this key, other than `except`, if there is one. */
    method FindBy(workspace: D.WorkspaceId, key: string, except: set<D.ConversationId>) returns (found: Option<D.ConversationId>)
      requires Keyed() && Canonical(key)
      ensures found.Some? ==> found.value !in except && D.HoldsKey(Contents().rows, found.value, workspace, KeyIds(key))
      ensures found.None? ==> !D.Taken(Contents().rows, workspace, KeyIds(key), except)
    {
      forall id | id in rows ensures rows[id].key == key <==> KeyIds(rows[id].key) == KeyIds(key) {
        CanonicalEqual(rows[id].key, key);
      }
      if exists id | id in rows :: id !in except && rows[id].workspace == workspace && rows[id].key == key {
        var id :| id in rows && id !in except && rows[id].workspace == workspace && rows[id].key == key;
        return Some(id);
      }
      return None;
    }

    /** Finds or creates the conversation of `users`; no users at all make a blank key, which fails validation. */
    method FindOrCreate(workspace: D.WorkspaceId, users: seq<UserId>, newId: D.ConversationId) returns (answer: Option<D.ConversationId>)
      requires Keyed() && newId !in rows
      modifies this`rows
      ensures Keyed()
      ensures answer.None? <==> users == []
      ensures answer.None? ==> rows == old(rows)
      ensures answer.Some? ==> D.Answers(old(Contents()), workspace, ToSet(users), answer.value)
      ensures answer.Some? ==> Contents() == D.Ensure(old(Contents()), workspace, ToSet(users), answer.value)
    {
      if users == [] {
        return None;
      }
      var key := MakeKey(users);
      var found := FindBy(workspace, key, {});
      if found.Some? {
        var row := rows[found.value].(active := true);
        AbstractUpdate(rows, found.value, row);
        rows := rows[found.value := row];
        return found;
      }
      var row := Row(workspace, key, ToSet(users), true);
      AbstractUpdate(rows, newId, row);
      rows := rows[newId := row];
      return Some(newId);
    }

    /** One iteration of the archive loop. */
    method Detach(user: UserId, id: D.ConversationId)
      requires Keyed() && id in rows
      modifies this`rows
      ensures Keyed() && rows.Keys == old(rows).Keys
      ensures Contents() == D.Detach(old(Contents()), user, id)
    {
      var row := Settled(user, id);
      AbstractUpdate(rows, id, row);
      rows := rows[id := row];
    }

    /** What an iteration makes of its conversation: archived, or without the user and keyed by those who stay. */
    method Settled(user: UserId, id: D.ConversationId) returns (row: Row)
      requires Keyed() && id in rows
      ensures Canonical(row.key)
      ensures D.Detach(Contents(), user, id) == Contents().(rows := Contents().rows[id := Abstract(row)])
    {
      var c := rows[id];
      var staying := c.members - archived;
      if |staying| <= 1 { return c.(active := false); }
      var listed := Ascending(staying);
      NonEmptySet(listed);
      var key := MakeKey(listed);
      var existing := FindBy(c.workspace, key, {id});
      if existing.Some? { return c.(active := false); }
      return c.(key := key, members := c.members - {user});
    }

    /** Archives a user: `order` is the order in which the loop visited the conversations. */
    method Archive(user: UserId) returns (ghost order: seq<D.ConversationId>)
      requires Keyed()
      modifies this
      ensures Keyed()
      ensures D.VisitOrder(old(Contents()), user, order)
      ensures Contents() == D.Archive(old(Contents()), user, order)
    {
      archived := archived + {user};
      var pending := Ascending(set id | id in rows && user in rows[id].members);
      order := pending;
      assert forall id | id in pending :: id in ToSet(pending);
      while pending != []
        invariant Keyed() && archived == old(archived) + {user}
        invariant forall id | id in pending :: id in rows
        invariant D.DetachAll(Contents(), user, pending) == D.Archive(old(Contents()), user, order)
      {
        Detach(user, pending[0]);
        pending := pending[1..];
      }
    }

    method Unarchive(user: UserId)
      modifies this`archived
      ensures Contents() == D.Apply(old(Contents()), D.UnarchiveOp(user))
    {
      archived := archived - {user};
    }
  }
}
