/** The client's message list: optimistic sends, live events and older pages over one sorted list. */
module MessageList {
  import opened Options

  /** A message: its identity, its creation time and its other fields by name; a partial payload has fewer fields. */
  datatype Message = Message(id: int, createdAt: int, fields: map<string, string>)

  datatype Event = Created(message: Message) | Updated(message: Message) | Deleted(message: Message)

  /** `{ ...old, ...payload }`. */
  function Merge(existing: Message, payload: Message): Message {
    Message(payload.id, payload.createdAt, existing.fields + payload.fields)
  }

  /** The comparator's order: by creation time, then by id. */
  predicate Less(a: Message, b: Message) {
    a.createdAt < b.createdAt || (a.createdAt == b.createdAt && a.id < b.id)
  }

  function Insert(m: Message, sorted: seq<Message>): seq<Message> {
    if sorted == [] || !Less(sorted[0], m) then [m] + sorted else [sorted[0]] + Insert(m, sorted[1..])
  }

  /** A stable sort. */
  function SortMessages(messages: seq<Message>): seq<Message> {
    if messages == [] then [] else Insert(messages[0], SortMessages(messages[1..]))
  }

  predicate HasId(messages: seq<Message>, id: int) {
    exists m | m in messages :: m.id == id
  }

  /** `messages.filter((m) => m.id !== id)`. */
  function Without(messages: seq<Message>, id: int): seq<Message> {
    if messages == [] then []
    else if messages[0].id == id then Without(messages[1..], id)
    else [messages[0]] + Without(messages[1..], id)
  }

  function Replace(messages: seq<Message>, payload: Message): seq<Message> {
    seq(|messages|, i requires 0 <= i < |messages| => if messages[i].id == payload.id then Merge(messages[i], payload) else messages[i])
  }

  function MergeMessageEvent(messages: seq<Message>, e: Event): seq<Message> {
    match e
    case Created(m) => if HasId(messages, m.id) then Replace(messages, m) else SortMessages(messages + [m])
    case Updated(m) => Replace(messages, m)
    case Deleted(m) => Without(messages, m.id)
  }

  function ReconcileOptimistic(messages: seq<Message>, optimisticId: int, canonical: Message): seq<Message> {
    SortMessages(Without(Without(messages, optimisticId), canonical.id) + [canonical])
  }

  /** `older.filter((m) => !ids.has(m.id))`. */
  function Unseen(older: seq<Message>, current: seq<Message>): seq<Message> {
    if older == [] then []
    else if HasId(current, older[0].id) then Unseen(older[1..], current)
    else [older[0]] + Unseen(older[1..], current)
  }

  function PrependOlderMessages(current: seq<Message>, older: seq<Message>): seq<Message> {
    SortMessages(Unseen(older, current) + current)
  }

  // ---------------------------------------------------------------- the abstract state: a map from id to message

  type Messages = map<int, Message>

  /** Messages are filed under their ids, and creation times are fixed per id by `born`. */
  ghost predicate Filed(m: Messages, born: int -> int) {
    forall id | id in m :: m[id].id == id && m[id].createdAt == born(id)
  }

  /** A message that comes with the creation time of its id. */
  predicate Timely(m: Message, born: int -> int) {
    m.createdAt == born(m.id)
  }

  function MapEvent(m: Messages, e: Event): Messages {
    match e
    case Created(p) => m[p.id := if p.id in m then Merge(m[p.id], p) else p]
    case Updated(p) => if p.id in m then m[p.id := Merge(m[p.id], p)] else m
    case Deleted(p) => m - {p.id}
  }

  function MapReconcile(m: Messages, optimisticId: int, canonical: Message): Messages {
    (m - {optimisticId})[canonical.id := canonical]
  }

  /** The page as a map; on repeated ids the first message counts. */
  function PageMap(page: seq<Message>): Messages {
    if page == [] then map[] else PageMap(page[1..])[page[0].id := page[0]]
  }

  // ---------------------------------------------------------------- a sorted list of the map is unique

  /** Oldest first, and by increasing id where the creation times are the same. */
  predicate Sorted(l: seq<Message>) {
    forall i, j | 0 <= i < j < |l| ::
      l[i].createdAt < l[j].createdAt || (l[i].createdAt == l[j].createdAt && l[i].id < l[j].id)
  }

  /** `l` is the list of the messages of `m`, in strictly increasing order. */
  ghost predicate Shows(l: seq<Message>, m: Messages) {
    && Sorted(l)
    && (forall x | x in l :: x.id in m && m[x.id] == x)
    && (forall id | id in m :: m[id] in l && m[id].id == id)
  }

  lemma SameEmptiness(a: seq<Message>, b: seq<Message>)
    requires forall x :: x in a <==> x in b
    ensures a == [] <==> b == []
  {
    if a != [] { assert a[0] in b; }
    if b != [] { assert b[0] in a; }
  }

  lemma {:induction false} SortedUnique(a: seq<Message>, b: seq<Message>)
    requires Sorted(a) && Sorted(b) && forall x :: x in a <==> x in b
    ensures a == b
  {
    SameEmptiness(a, b);
    if a != [] {
      assert a[0] in b && b[0] in a;
      assert a[0] == b[0];
      forall x ensures x in a[1..] <==> x in b[1..] {
        assert x in a <==> x == a[0] || x in a[1..];
        assert x in b <==> x == b[0] || x in b[1..];
      }
      SortedUnique(a[1..], b[1..]);
    }
  }

  /** A map has at most one sorted listing. */
  lemma ShowsUnique(a: seq<Message>, b: seq<Message>, m: Messages)
    requires Shows(a, m) && Shows(b, m)
    ensures a == b
  {
    SortedUnique(a, b);
  }

  /** No two messages of a listing share an id. */
  lemma ShowsDistinct(l: seq<Message>, m: Messages, i: nat, j: nat)
    requires Shows(l, m) && i < j < |l|
    ensures l[i].id != l[j].id
  {
  }

  // ---------------------------------------------------------------- sorting

  predicate DistinctIds(l: seq<Message>) {
    forall i, j | 0 <= i < j < |l| :: l[i].id != l[j].id
  }

  lemma SortedCons(m: Message, l: seq<Message>)
    requires Sorted(l) && forall x | x in l :: Less(m, x)
    ensures Sorted([m] + l)
  {
    var all := [m] + l;
    forall i, j | 0 <= i < j < |all| ensures Less(all[i], all[j]) {
      assert all[j] == l[j - 1] && (i > 0 ==> all[i] == l[i - 1]);
    }
  }

  lemma {:induction false} InsertSorted(m: Message, l: seq<Message>)
    requires Sorted(l) && !HasId(l, m.id)
    ensures Sorted(Insert(m, l)) && forall x :: x in Insert(m, l) <==> x == m || x in l
  {
    if l != [] {
      var rest := l[1..];
      assert l == [l[0]] + rest && l[0] in l;
      SortedHead(l);
      if !Less(l[0], m) {
        forall x | x in l ensures Less(m, x) {
          assert x == l[0] || Less(l[0], x);
        }
        SortedCons(m, l);
      } else {
        InsertSorted(m, rest);
        SortedCons(l[0], Insert(m, rest));
      }
    }
  }

  /** On distinct ids the sort yields the strictly increasing listing of the same messages. */
  lemma {:induction false} SortSorts(l: seq<Message>)
    requires DistinctIds(l)
    ensures Sorted(SortMessages(l)) && forall x :: x in SortMessages(l) <==> x in l
  {
    if l != [] {
      SortSorts(l[1..]);
      forall x | x in l[1..] ensures x.id != l[0].id {
        var k :| 0 <= k < |l[1..]| && l[1..][k] == x;
        assert l[k + 1] == x;
      }
      InsertSorted(l[0], SortMessages(l[1..]));
      assert l == [l[0]] + l[1..];
    }
  }

  lemma DistinctConsIff(m: Message, l: seq<Message>)
    ensures DistinctIds([m] + l) <==> !HasId(l, m.id) && DistinctIds(l)
  {
    var all := [m] + l;
    if DistinctIds(all) {
      forall x | x in l ensures x.id != m.id {
        var k :| 0 <= k < |l| && l[k] == x;
        assert all[0].id != all[k + 1].id;
      }
      forall i, j | 0 <= i < j < |l| ensures l[i].id != l[j].id {
        assert all[i + 1].id != all[j + 1].id;
      }
    }
    if !HasId(l, m.id) && DistinctIds(l) {
      forall i, j | 0 <= i < j < |all| ensures all[i].id != all[j].id {
        assert all[j] in l;
      }
    }
  }

  lemma {:induction false} InsertDistinctIff(m: Message, l: seq<Message>)
    ensures forall id :: HasId(Insert(m, l), id) <==> id == m.id || HasId(l, id)
    ensures DistinctIds(Insert(m, l)) <==> !HasId(l, m.id) && DistinctIds(l)
  {
    if l == [] || !Less(l[0], m) {
      DistinctConsIff(m, l);
      HasIdCons(m, l);
    } else {
      InsertDistinctIff(m, l[1..]);
      assert l == [l[0]] + l[1..];
      HasIdCons(l[0], l[1..]);
      HasIdCons(l[0], Insert(m, l[1..]));
      DistinctConsIff(l[0], l[1..]);
      DistinctConsIff(l[0], Insert(m, l[1..]));
    }
  }

  lemma HasIdCons(m: Message, l: seq<Message>)
    ensures forall id :: HasId([m] + l, id) <==> id == m.id || HasId(l, id)
  {
    assert m in [m] + l;
    assert forall x | x in l :: x in [m] + l;
  }

  /** Sorting keeps the ids, repeats included. */
  lemma {:induction false} SortDistinctIff(l: seq<Message>)
    ensures forall id :: HasId(SortMessages(l), id) <==> HasId(l, id)
    ensures DistinctIds(SortMessages(l)) <==> DistinctIds(l)
  {
    if l != [] {
      SortDistinctIff(l[1..]);
      InsertDistinctIff(l[0], SortMessages(l[1..]));
      assert l == [l[0]] + l[1..];
      HasIdCons(l[0], l[1..]);
      DistinctConsIff(l[0], l[1..]);
    }
  }

  lemma ShowsIsDistinct(l: seq<Message>, m: Messages)
    requires Shows(l, m)
    ensures DistinctIds(l)
  {
  }

  lemma SortedHead(l: seq<Message>)
    requires l != [] && Sorted(l)
    ensures Sorted(l[1..]) && forall x | x in l[1..] :: Less(l[0], x)
  {
  }

  lemma {:induction false} WithoutKeeps(l: seq<Message>, id: int)
    ensures forall x :: x in Without(l, id) <==> x in l && x.id != id
    ensures Sorted(l) ==> Sorted(Without(l, id))
    ensures DistinctIds(l) ==> DistinctIds(Without(l, id))
  {
    if l != [] {
      WithoutKeeps(l[1..], id);
      var rest := Without(l[1..], id);
      assert l == [l[0]] + l[1..];
      if Sorted(l) {
        SortedHead(l);
        if l[0].id != id { SortedCons(l[0], rest); }
      }
      if DistinctIds(l) && l[0].id != id {
        DistinctCons(l[0], l[1..], rest);
      }
    }
  }

  lemma DistinctCons(m: Message, l: seq<Message>, rest: seq<Message>)
    requires DistinctIds([m] + l) && DistinctIds(rest) && forall x | x in rest :: x in l
    ensures DistinctIds([m] + rest)
  {
    var all := [m] + rest;
    forall i, j | 0 <= i < j < |all| ensures all[i].id != all[j].id {
      assert all[j] in l;
      var k :| 0 <= k < |l| && l[k] == all[j];
      assert ([m] + l)[0].id != ([m] + l)[k + 1].id;
      assert i > 0 ==> all[i] == rest[i - 1] && all[j] == rest[j - 1];
    }
  }

  // ---------------------------------------------------------------- refinement

  /** A sorted list of `l` and one more message shows the map with that message added. */
  lemma SortAdds(l: seq<Message>, m: Messages, x: Message)
    requires Shows(l, m) && x.id !in m
    ensures Shows(SortMessages(l + [x]), m[x.id := x])
  {
    ShowsIsDistinct(l, m);
    forall i | 0 <= i < |l| ensures l[i].id != x.id {
      assert l[i] in l;
    }
    SortSorts(l + [x]);
  }

  lemma WithoutRemoves(l: seq<Message>, m: Messages, id: int)
    requires Shows(l, m)
    ensures Shows(Without(l, id), m - {id})
  {
    WithoutKeeps(l, id);
    forall k | k in m - {id} ensures (m - {id})[k] in Without(l, id) {
      assert m[k] in l;
    }
  }

  lemma ReplaceUpdates(l: seq<Message>, m: Messages, p: Message, born: int -> int)
    requires Shows(l, m) && Filed(m, born) && Timely(p, born)
    ensures Shows(Replace(l, p), if p.id in m then m[p.id := Merge(m[p.id], p)] else m)
  {
    var r, n := Replace(l, p), if p.id in m then m[p.id := Merge(m[p.id], p)] else m;
    forall i | 0 <= i < |l| ensures r[i].id == l[i].id && r[i].createdAt == l[i].createdAt && r[i].id in n && n[r[i].id] == r[i] {
      assert l[i] in l;
    }
    forall i, j | 0 <= i < j < |r| ensures Less(r[i], r[j]) {
      assert Less(l[i], l[j]);
    }
    forall id | id in n ensures n[id] in r {
      var k :| 0 <= k < |l| && l[k] == m[id];
      assert r[k] in r;
    }
  }

  /** A live event on the list is the event on the map. */
  lemma EventRefines(l: seq<Message>, m: Messages, e: Event, born: int -> int)
    requires Shows(l, m) && Filed(m, born) && Timely(e.message, born)
    ensures Shows(MergeMessageEvent(l, e), MapEvent(m, e)) && Filed(MapEvent(m, e), born)
  {
    var p := e.message;
    assert HasId(l, p.id) <==> p.id in m;
    match e
    case Created(_) => if p.id in m { ReplaceUpdates(l, m, p, born); } else { SortAdds(l, m, p); }
    case Updated(_) => ReplaceUpdates(l, m, p, born);
    case Deleted(_) => WithoutRemoves(l, m, p.id);
  }

  /** Reconciling an optimistic send drops it from the map and files the canonical message. */
  lemma ReconcileRefines(l: seq<Message>, m: Messages, optimisticId: int, canonical: Message, born: int -> int)
    requires Shows(l, m) && Filed(m, born) && Timely(canonical, born)
    ensures Shows(ReconcileOptimistic(l, optimisticId, canonical), MapReconcile(m, optimisticId, canonical))
    ensures Filed(MapReconcile(m, optimisticId, canonical), born)
  {
    WithoutRemoves(l, m, optimisticId);
    WithoutRemoves(Without(l, optimisticId), m - {optimisticId}, canonical.id);
    var rest := m - {optimisticId} - {canonical.id};
    SortAdds(Without(Without(l, optimisticId), canonical.id), rest, canonical);
    assert rest[canonical.id := canonical] == MapReconcile(m, optimisticId, canonical);
  }

  lemma {:induction false} PageMapFiles(page: seq<Message>)
    requires DistinctIds(page)
    ensures forall x | x in page :: x.id in PageMap(page) && PageMap(page)[x.id] == x
    ensures forall id | id in PageMap(page) :: PageMap(page)[id] in page && PageMap(page)[id].id == id
  {
    if page != [] {
      PageMapFiles(page[1..]);
      assert page == [page[0]] + page[1..];
      forall x | x in page[1..] ensures x.id != page[0].id {
        var k :| 0 <= k < |page[1..]| && page[1..][k] == x;
        assert page[k + 1] == x;
      }
    }
  }

  lemma {:induction false} UnseenKeeps(older: seq<Message>, current: seq<Message>)
    ensures forall x :: x in Unseen(older, current) <==> x in older && !HasId(current, x.id)
    ensures DistinctIds(older) ==> DistinctIds(Unseen(older, current))
  {
    if older != [] {
      UnseenKeeps(older[1..], current);
      assert older == [older[0]] + older[1..];
      if DistinctIds(older) && !HasId(current, older[0].id) {
        DistinctCons(older[0], older[1..], Unseen(older[1..], current));
      }
    }
  }

  /** For ids the list lacks, the page and its unseen part file the same messages. */
  lemma {:induction false} PageMapUnseen(page: seq<Message>, l: seq<Message>)
    ensures forall id | !HasId(l, id) :: Look(PageMap(page), id) == Look(PageMap(Unseen(page, l)), id)
    ensures forall id | HasId(l, id) :: id !in PageMap(Unseen(page, l))
    decreases |page|
  {
    if page != [] {
      PageMapUnseen(page[1..], l);
      if !HasId(l, page[0].id) {
        assert ([page[0]] + Unseen(page[1..], l))[1..] == Unseen(page[1..], l);
      }
    }
  }

  /** The messages of a page that the list lacks have different ids. */
  predicate Apart(l: seq<Message>, page: seq<Message>) {
    DistinctIds(Unseen(page, l))
  }

  lemma UnseenFiles(l: seq<Message>, m: Messages, page: seq<Message>)
    requires Shows(l, m)
    ensures PageMap(page) + m == PageMap(Unseen(page, l)) + m
  {
    var a, b := PageMap(page) + m, PageMap(Unseen(page, l)) + m;
    PageMapUnseen(page, l);
    forall id ensures Look(a, id) == Look(b, id) {
      assert HasId(l, id) <==> id in m;
      assert !HasId(l, id) ==> Look(PageMap(page), id) == Look(PageMap(Unseen(page, l)), id);
    }
    LookDetermines(a, b);
  }

  /** Loading an older page adds the messages of the page that the map lacks, provided that their ids differ. */
  lemma PrependRefines(l: seq<Message>, m: Messages, older: seq<Message>, born: int -> int)
    requires Shows(l, m) && Filed(m, born)
    requires Apart(l, older) && forall x | x in older :: Timely(x, born)
    ensures Shows(PrependOlderMessages(l, older), PageMap(older) + m) && Filed(PageMap(older) + m, born)
  {
    var unseen := Unseen(older, l);
    var page := PageMap(unseen);
    assert PageMap(older) + m == page + m by { UnseenFiles(l, m, older); }
    assert DistinctIds(unseen + l) by { PrependDistinctIff(l, m, older); }
    assert forall x | x in unseen :: x in older && !HasId(l, x.id) by { UnseenKeeps(older, l); }
    PageMapFiles(unseen);
    ShowsTogether(l, m, unseen, page);
  }

  /** Messages with new ids and the listing of a map, sorted together, show both maps. */
  lemma ShowsTogether(l: seq<Message>, m: Messages, unseen: seq<Message>, page: Messages)
    requires Shows(l, m) && DistinctIds(unseen + l) && (forall x | x in unseen :: !HasId(l, x.id) && x.id in page && page[x.id] == x)
    requires forall id | id in page :: page[id] in unseen && page[id].id == id
    ensures Shows(SortMessages(unseen + l), page + m)
  {
    var all := unseen + l;
    FilesTogether(l, m, unseen, page, all);
    SortSorts(all);
  }

  /** Messages with new ids and the listing of a map are together the messages of both maps. */
  lemma FilesTogether(l: seq<Message>, m: Messages, unseen: seq<Message>, page: Messages, all: seq<Message>)
    requires Shows(l, m) && all == unseen + l && (forall x | x in unseen :: !HasId(l, x.id) && x.id in page && page[x.id] == x)
    requires forall id | id in page :: page[id] in unseen && page[id].id == id
    ensures forall id | id in page + m :: (page + m)[id] in all
    ensures forall x | x in all :: x.id in page + m && (page + m)[x.id] == x
  {
    forall id | id in page + m ensures (page + m)[id] in all {
      assert HasId(l, id) <==> id in m;
    }
    forall x | x in all ensures x.id in page + m && (page + m)[x.id] == x {
      assert x in unseen || x in l;
    }
  }

  /** After loading a page ids are unique if and only if the ids that the page adds differ. */
  lemma PrependDistinctIff(l: seq<Message>, m: Messages, older: seq<Message>)
    requires Shows(l, m)
    ensures DistinctIds(Unseen(older, l) + l) <==> Apart(l, older)
    ensures DistinctIds(PrependOlderMessages(l, older)) <==> Apart(l, older)
  {
    var unseen := Unseen(older, l);
    var all := unseen + l;
    UnseenKeeps(older, l);
    ShowsIsDistinct(l, m);
    SortDistinctIff(all);
    if DistinctIds(all) {
      forall i, j | 0 <= i < j < |unseen| ensures unseen[i].id != unseen[j].id {
        assert all[i].id != all[j].id;
      }
    }
    if DistinctIds(unseen) {
      forall i, j | 0 <= i < j < |all| ensures all[i].id != all[j].id {
        if i < |unseen| <= j { assert all[i] in unseen && all[j] in l; }
      }
    }
  }

  function Look(m: Messages, id: int): Option<Message> {
    if id in m then Some(m[id]) else None
  }

  lemma LookDetermines(a: Messages, b: Messages)
    requires forall id :: Look(a, id) == Look(b, id)
    ensures a == b
  {
    forall id ensures (id in a <==> id in b) && (id in a ==> a[id] == b[id]) {
      assert Look(a, id) == Look(b, id);
    }
  }

  // ---------------------------------------------------------------- whole runs

  datatype Op = Live(event: Event) | Reconcile(optimisticId: int, canonical: Message) | Older(page: seq<Message>)

  function Apply(l: seq<Message>, op: Op): seq<Message> {
    match op
    case Live(e) => MergeMessageEvent(l, e)
    case Reconcile(id, canonical) => ReconcileOptimistic(l, id, canonical)
    case Older(page) => PrependOlderMessages(l, page)
  }

  function MapApply(m: Messages, op: Op): Messages {
    match op
    case Live(e) => MapEvent(m, e)
    case Reconcile(id, canonical) => MapReconcile(m, id, canonical)
    case Older(page) => PageMap(page) + m
  }

  /** What the server sends: creation times fixed per id. */
  ghost predicate WellSent(op: Op, born: int -> int) {
    match op
    case Live(e) => Timely(e.message, born)
    case Reconcile(_, canonical) => Timely(canonical, born)
    case Older(page) => forall x | x in page :: Timely(x, born)
  }

  function Run(l: seq<Message>, ops: seq<Op>): seq<Message>
    decreases |ops|
  {
    if ops == [] then l else Run(Apply(l, ops[0]), ops[1..])
  }

  function MapRun(m: Messages, ops: seq<Op>): Messages
    decreases |ops|
  {
    if ops == [] then m else MapRun(MapApply(m, ops[0]), ops[1..])
  }

  /** Every page of a run adds different ids to the list it finds. */
  predicate PagesApart(l: seq<Message>, ops: seq<Op>)
    decreases |ops|
  {
    ops == [] || ((ops[0].Older? ==> Apart(l, ops[0].page)) && PagesApart(Apply(l, ops[0]), ops[1..]))
  }

  lemma ApplyRefines(l: seq<Message>, m: Messages, op: Op, born: int -> int)
    requires Shows(l, m) && Filed(m, born) && WellSent(op, born) && (op.Older? ==> Apart(l, op.page))
    ensures Shows(Apply(l, op), MapApply(m, op)) && Filed(MapApply(m, op), born)
  {
    match op
    case Live(e) => EventRefines(l, m, e, born);
    case Reconcile(id, canonical) => ReconcileRefines(l, m, id, canonical, born);
    case Older(page) => PrependRefines(l, m, page, born);
  }

  /** After any run the list is the sorted listing of the map run: ids are unique and the order is kept throughout. */
  lemma {:induction false} RunRefines(l: seq<Message>, m: Messages, ops: seq<Op>, born: int -> int)
    requires Shows(l, m) && Filed(m, born) && (forall op | op in ops :: WellSent(op, born)) && PagesApart(l, ops)
    ensures Shows(Run(l, ops), MapRun(m, ops)) && Filed(MapRun(m, ops), born)
    decreases |ops|
  {
    if ops != [] {
      assert WellSent(ops[0], born);
      ApplyRefines(l, m, ops[0], born);
      RunRefines(Apply(l, ops[0]), MapApply(m, ops[0]), ops[1..], born);
    }
  }

  /** After any such run the list is oldest first, and by increasing id where the creation times are the same. */
  lemma OldestFirst(l: seq<Message>, m: Messages, ops: seq<Op>, born: int -> int, i: nat, j: nat)
    requires Shows(l, m) && Filed(m, born) && (forall op | op in ops :: WellSent(op, born)) && PagesApart(l, ops)
    requires i < j < |Run(l, ops)|
    ensures var a, b := Run(l, ops)[i], Run(l, ops)[j]; a.createdAt < b.createdAt || (a.createdAt == b.createdAt && a.id < b.id)
  {
    RunRefines(l, m, ops, born);
  }

  /** Ids stay unique at every point of a run if and only if no page adds an id twice. */
  lemma {:induction false} RunDistinctIff(l: seq<Message>, m: Messages, ops: seq<Op>, born: int -> int)
    requires Shows(l, m) && Filed(m, born) && forall op | op in ops :: WellSent(op, born)
    ensures (forall n | 0 <= n <= |ops| :: DistinctIds(Run(l, ops[..n]))) <==> PagesApart(l, ops)
    decreases |ops|
  {
    ShowsIsDistinct(l, m);
    if ops != [] {
      var op, rest := ops[0], ops[1..];
      assert WellSent(op, born);
      forall n | 0 <= n <= |rest| ensures Run(l, ops[..n + 1]) == Run(Apply(l, op), rest[..n]) {
        assert ops[..n + 1][1..] == rest[..n];
      }
      assert forall n | 1 <= n <= |ops| :: Run(l, ops[..n]) == Run(Apply(l, op), rest[..n - 1]);
      if op.Older? && !Apart(l, op.page) {
        PrependDistinctIff(l, m, op.page);
        assert rest[..0] == [];
        assert !DistinctIds(Run(l, ops[..1]));
      } else {
        ApplyRefines(l, m, op, born);
        RunDistinctIff(Apply(l, op), MapApply(m, op), rest, born);
        if forall n | 0 <= n <= |ops| :: DistinctIds(Run(l, ops[..n])) {
          forall n | 0 <= n <= |rest| ensures DistinctIds(Run(Apply(l, op), rest[..n])) {
            assert DistinctIds(Run(l, ops[..n + 1]));
          }
        }
      }
    }
  }

  /** A page with one new id twice leaves two messages of that id. */
  lemma RepeatedPageRepeats(x: Message)
    ensures !DistinctIds(PrependOlderMessages([], [x, x]))
  {
    assert Unseen([x, x], []) == [x, x] by {
      assert [x, x][1..] == [x] && [x][1..] == [];
      assert Unseen([x], []) == [x];
    }
    assert !DistinctIds([x, x]) by { assert [x, x][0].id == [x, x][1].id; }
    assert [x, x] + [] == [x, x];
    SortDistinctIff([x, x]);
  }

  // ---------------------------------------------------------------- convergence

  /** An event on the entry of its own id. */
  function OneEvent(entry: Option<Message>, e: Event): Option<Message> {
    match e
    case Created(p) => Some(if entry.Some? then Merge(entry.value, p) else p)
    case Updated(p) => if entry.Some? then Some(Merge(entry.value, p)) else None
    case Deleted(_) => None
  }

  function Fold(entry: Option<Message>, events: seq<Event>): Option<Message>
    decreases |events|
  {
    if events == [] then entry else Fold(OneEvent(entry, events[0]), events[1..])
  }

  /** The events of one id, in order. */
  function Only(events: seq<Event>, id: int): seq<Event>
    decreases |events|
  {
    if events == [] then []
    else if events[0].message.id == id then [events[0]] + Only(events[1..], id)
    else Only(events[1..], id)
  }

  function AsOps(events: seq<Event>): seq<Op> {
    seq(|events|, i requires 0 <= i < |events| => Live(events[i]))
  }

  /** What a run of events leaves under an id depends only on the events of that id. */
  lemma {:induction false} RunPerId(m: Messages, events: seq<Event>, id: int)
    ensures Look(MapRun(m, AsOps(events)), id) == Fold(Look(m, id), Only(events, id))
    decreases |events|
  {
    if events != [] {
      var e := events[0];
      assert AsOps(events)[1..] == AsOps(events[1..]);
      RunPerId(MapEvent(m, e), events[1..], id);
      if e.message.id == id {
        assert ([e] + Only(events[1..], id))[1..] == Only(events[1..], id);
      }
    }
  }

  lemma {:induction false} LiveApart(l: seq<Message>, events: seq<Event>)
    ensures PagesApart(l, AsOps(events))
    decreases |events|
  {
    if events != [] {
      assert AsOps(events)[1..] == AsOps(events[1..]);
      LiveApart(MergeMessageEvent(l, events[0]), events[1..]);
    }
  }

  /** Two deliveries that agree on the order of events per message give the same list, however they interleave. */
  lemma Converges(l: seq<Message>, m: Messages, xs: seq<Event>, ys: seq<Event>, born: int -> int)
    requires Shows(l, m) && Filed(m, born)
    requires forall e | e in xs :: Timely(e.message, born)
    requires forall e | e in ys :: Timely(e.message, born)
    requires forall id :: Only(xs, id) == Only(ys, id)
    ensures Run(l, AsOps(xs)) == Run(l, AsOps(ys))
  {
    LiveApart(l, xs);
    LiveApart(l, ys);
    RunRefines(l, m, AsOps(xs), born);
    RunRefines(l, m, AsOps(ys), born);
    var a, b := MapRun(m, AsOps(xs)), MapRun(m, AsOps(ys));
    forall id ensures Look(a, id) == Look(b, id) {
      RunPerId(m, xs, id);
      RunPerId(m, ys, id);
    }
    LookDetermines(a, b);
    ShowsUnique(Run(l, AsOps(xs)), Run(l, AsOps(ys)), a);
  }

  /** The fields of `b` are all in `a`, with the same values. */
  predicate Agrees(a: Message, b: Message) {
    forall f | f in b.fields :: f in a.fields && a.fields[f] == b.fields[f]
  }

  lemma MergeAgrees(a: Message, b: Message)
    requires a.id == b.id && a.createdAt == b.createdAt
    ensures Merge(a, b) == a <==> Agrees(a, b)
    ensures Merge(a, b) == b <==> a.fields.Keys <= b.fields.Keys
  {
    if a.fields.Keys <= b.fields.Keys { assert a.fields + b.fields == b.fields; }
    if Merge(a, b) == b { assert (a.fields + b.fields).Keys == a.fields.Keys + b.fields.Keys; }
  }

  /** Lists show the same map exactly when they are the same. */
  lemma ShowsSame(a: seq<Message>, m: Messages, b: seq<Message>, n: Messages)
    requires Shows(a, m) && Shows(b, n)
    ensures a == b <==> m == n
  {
    if m == n { ShowsUnique(a, b, m); }
    if a == b {
      forall id ensures Look(m, id) == Look(n, id) {
        assert id in m ==> m[id] in a;
        assert id in n ==> n[id] in a;
      }
      LookDetermines(m, n);
    }
  }

  /** An event of the answered message must agree with the answer; one of the optimistic id must not create it. */
  predicate ReconcileCommutes(optimisticId: int, canonical: Message, e: Event) {
    if e.message.id == canonical.id then !e.Deleted? && Agrees(canonical, e.message)
    else e.message.id == optimisticId ==> !e.Created?
  }

  lemma MapReconcileIff(m: Messages, optimisticId: int, canonical: Message, e: Event)
    requires e.message.id == canonical.id ==> e.message.createdAt == canonical.createdAt
    ensures MapEvent(MapReconcile(m, optimisticId, canonical), e) == MapReconcile(MapEvent(m, e), optimisticId, canonical)
            <==> ReconcileCommutes(optimisticId, canonical, e)
  {
    var a, b := MapEvent(MapReconcile(m, optimisticId, canonical), e), MapReconcile(MapEvent(m, e), optimisticId, canonical);
    var id := e.message.id;
    if id == canonical.id { MergeAgrees(canonical, e.message); }
    assert forall other | other != id :: Look(a, other) == Look(b, other);
    assert Look(a, id) == Look(b, id) <==> ReconcileCommutes(optimisticId, canonical, e);
    if Look(a, id) == Look(b, id) { LookDetermines(a, b); }
  }

  /** The answer to a send and a live event give the same list in either order exactly under that condition. */
  lemma ReconcileCommutesIff(l: seq<Message>, m: Messages, optimisticId: int, canonical: Message, e: Event, born: int -> int)
    requires Shows(l, m) && Filed(m, born) && Timely(canonical, born) && Timely(e.message, born)
    ensures MergeMessageEvent(ReconcileOptimistic(l, optimisticId, canonical), e) ==
              ReconcileOptimistic(MergeMessageEvent(l, e), optimisticId, canonical)
            <==> ReconcileCommutes(optimisticId, canonical, e)
  {
    var answered, heard := ReconcileOptimistic(l, optimisticId, canonical), MergeMessageEvent(l, e);
    var a, b := MapReconcile(m, optimisticId, canonical), MapEvent(m, e);
    assert Shows(MergeMessageEvent(answered, e), MapEvent(a, e)) by {
      ReconcileRefines(l, m, optimisticId, canonical, born);
      EventRefines(answered, a, e, born);
    }
    assert Shows(ReconcileOptimistic(heard, optimisticId, canonical), MapReconcile(b, optimisticId, canonical)) by {
      EventRefines(l, m, e, born);
      ReconcileRefines(heard, b, optimisticId, canonical, born);
    }
    ShowsSame(MergeMessageEvent(answered, e), MapEvent(a, e),
              ReconcileOptimistic(heard, optimisticId, canonical), MapReconcile(b, optimisticId, canonical));
    MapReconcileIff(m, optimisticId, canonical, e);
  }

  /** An event of a message on the page must not delete it; if the map lacks the message, the merge must not show the order. */
  predicate OlderCommutes(m: Messages, page: seq<Message>, e: Event) {
    var id := e.message.id;
    id in PageMap(page) ==>
      && !e.Deleted?
      && (id in m || if e.Created? then PageMap(page)[id].fields.Keys <= e.message.fields.Keys else Agrees(PageMap(page)[id], e.message))
  }

  lemma MapOlderIff(m: Messages, page: seq<Message>, e: Event)
    requires e.message.id in PageMap(page) ==>
               PageMap(page)[e.message.id].id == e.message.id && PageMap(page)[e.message.id].createdAt == e.message.createdAt
    ensures MapEvent(PageMap(page) + m, e) == PageMap(page) + MapEvent(m, e) <==> OlderCommutes(m, page, e)
  {
    var a, b := MapEvent(PageMap(page) + m, e), PageMap(page) + MapEvent(m, e);
    var id := e.message.id;
    if id in PageMap(page) { MergeAgrees(PageMap(page)[id], e.message); }
    assert forall other | other != id :: Look(a, other) == Look(b, other);
    assert Look(a, id) == Look(b, id) <==> OlderCommutes(m, page, e);
    if Look(a, id) == Look(b, id) { LookDetermines(a, b); }
  }

  lemma {:induction false} PageMapIds(page: seq<Message>)
    ensures forall id | id in PageMap(page) :: PageMap(page)[id] in page && PageMap(page)[id].id == id
    decreases |page|
  {
    if page != [] {
      PageMapIds(page[1..]);
      assert page == [page[0]] + page[1..];
    }
  }

  /** An older page and a live event give the same list in either order exactly under that condition. */
  lemma OlderCommutesIff(l: seq<Message>, m: Messages, page: seq<Message>, e: Event, born: int -> int)
    requires Shows(l, m) && Filed(m, born) && Timely(e.message, born) && forall x | x in page :: Timely(x, born)
    requires Apart(l, page) && Apart(MergeMessageEvent(l, e), page)
    ensures MergeMessageEvent(PrependOlderMessages(l, page), e) == PrependOlderMessages(MergeMessageEvent(l, e), page)
            <==> OlderCommutes(m, page, e)
  {
    var loaded, heard := PrependOlderMessages(l, page), MergeMessageEvent(l, e);
    var a, b := PageMap(page) + m, MapEvent(m, e);
    assert Shows(MergeMessageEvent(loaded, e), MapEvent(a, e)) by {
      PrependRefines(l, m, page, born);
      EventRefines(loaded, a, e, born);
    }
    assert Shows(PrependOlderMessages(heard, page), PageMap(page) + b) by {
      EventRefines(l, m, e, born);
      PrependRefines(heard, b, page, born);
    }
    ShowsSame(MergeMessageEvent(loaded, e), MapEvent(a, e), PrependOlderMessages(heard, page), PageMap(page) + b);
    PageMapIds(page);
    MapOlderIff(m, page, e);
  }

  /** The HTTP response and the broadcast of one send give the same list in either order exactly when their fields agree. */
  lemma SendConverges(l: seq<Message>, m: Messages, optimisticId: int, canonical: Message, broadcast: Message, born: int -> int)
    requires Shows(l, m) && Filed(m, born)
    requires Timely(canonical, born) && Timely(broadcast, born) && broadcast.id == canonical.id
    ensures MergeMessageEvent(ReconcileOptimistic(l, optimisticId, canonical), Created(broadcast)) ==
              ReconcileOptimistic(MergeMessageEvent(l, Created(broadcast)), optimisticId, canonical)
            <==> Agrees(canonical, broadcast)
  {
    ReconcileCommutesIff(l, m, optimisticId, canonical, Created(broadcast), born);
  }

  /** A broadcast with a field that the response lacks: the two orders end differently. */
  lemma SendDiverges(optimisticId: int)
    ensures var canonical, broadcast := Message(1, 0, map[]), Message(1, 0, map["body" := "hi"]);
            MergeMessageEvent(ReconcileOptimistic([], optimisticId, canonical), Created(broadcast)) !=
            ReconcileOptimistic(MergeMessageEvent([], Created(broadcast)), optimisticId, canonical)
  {
    var canonical, broadcast := Message(1, 0, map[]), Message(1, 0, map["body" := "hi"]);
    assert "body" in broadcast.fields && !Agrees(canonical, broadcast);
    SendConverges([], map[], optimisticId, canonical, broadcast, id => 0);
  }

  /** A payload that changes the creation time of a message keeps the order exactly when it still fits between its neighbours. */
  lemma ReplaceOrderIff(l: seq<Message>, i: nat, p: Message)
    requires Sorted(l) && DistinctIds(l) && i < |l| && p.id == l[i].id
    ensures Sorted(Replace(l, p)) <==> (i > 0 ==> Less(l[i - 1], p)) && (i + 1 < |l| ==> Less(p, l[i + 1]))
  {
    var x := Merge(l[i], p);
    assert Replace(l, p) == l[i := x];
    UpdateOrderIff(l, i, x);
  }

  lemma UpdateOrderIff(l: seq<Message>, i: nat, x: Message)
    requires Sorted(l) && i < |l|
    ensures Sorted(l[i := x]) <==> (i > 0 ==> Less(l[i - 1], x)) && (i + 1 < |l| ==> Less(x, l[i + 1]))
  {
    var r := l[i := x];
    if Sorted(r) {
      assert i > 0 ==> Less(r[i - 1], r[i]);
      assert i + 1 < |l| ==> Less(r[i], r[i + 1]);
    } else if (i > 0 ==> Less(l[i - 1], x)) && (i + 1 < |l| ==> Less(x, l[i + 1])) {
      forall a, b | 0 <= a < b < |r| ensures Less(r[a], r[b]) {
        assert a != i && b != i ==> Less(l[a], l[b]);
        assert b == i && a < i - 1 ==> Less(l[a], l[i - 1]);
        assert a == i && b > i + 1 ==> Less(l[i + 1], l[b]);
      }
    }
  }
}
