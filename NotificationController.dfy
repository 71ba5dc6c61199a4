/** Notifications of one user over the stored notification list, their
    creation, marking as read, and the welcome seeding. `nowIso` stands
    for the current time as an ISO string and `now` for `Date.now()`. */
module NotificationController {
  import opened Json
  import opened Wrappers
  import opened StorageService
  import opened NotificationModel
  import Seqs

  /** The stored records addressed to that user, in storage order. */
  function ForUser(raw: seq<Record>, userId: Value): (rs: seq<Record>)
    ensures forall x :: x in rs <==> x in raw && Get(x, "userId") == userId
    ensures Seqs.IsSubseq(rs, raw)
    ensures forall x {:trigger multiset(rs)[x]} :: multiset(rs)[x] == if Get(x, "userId") == userId then multiset(raw)[x] else 0
  {
    Seqs.FilterMultiset(raw, (x: Record) => Get(x, "userId") == userId);
    Seqs.Filter(raw, (x: Record) => Get(x, "userId") == userId)
  }

  /** `getAll`: exactly the user's notifications, wrapped, in storage
      order. */
  function GetAll(raw: seq<Record>, userId: Value, nowIso: string): (ns: seq<Notification>)
    ensures |ns| == |ForUser(raw, userId)|
    ensures forall i :: 0 <= i < |ns| ==>
      ns[i] == NotificationOf(ForUser(raw, userId)[i], nowIso) && ns[i].userId == userId
  {
    var mine := ForUser(raw, userId);
    assert forall i :: 0 <= i < |mine| ==> mine[i] in mine;
    Seqs.Map(mine, (x: Record) => NotificationOf(x, nowIso))
  }

  predicate IsUnread(n: Notification)
  {
    !Truthy(n.read)
  }

  /** `getUnread`: the user's notifications whose read flag is falsy, in
      order. */
  function GetUnread(raw: seq<Record>, userId: Value, nowIso: string): (ns: seq<Notification>)
    ensures forall n :: n in ns <==> n in GetAll(raw, userId, nowIso) && !Truthy(n.read)
    ensures Seqs.IsSubseq(ns, GetAll(raw, userId, nowIso))
    ensures forall x {:trigger multiset(ns)[x]} :: multiset(ns)[x] == if !Truthy(x.read) then multiset(GetAll(raw, userId, nowIso))[x] else 0
  {
    Seqs.FilterMultiset(GetAll(raw, userId, nowIso), IsUnread);
    Seqs.Filter(GetAll(raw, userId, nowIso), IsUnread)
  }

  /** The record `create` stores before the id is added: unread, stamped
      with the current time, of type 'info' when no type is passed. */
  function NoteRecord(userId: Value, message: Value, kind: Value, nowIso: string): (r: Record)
    ensures Get(r, "userId") == userId && Get(r, "message") == message
    ensures Get(r, "type") == (if kind == Undefined then Str("info") else kind)
    ensures Get(r, "read") == Bool(false) && Get(r, "timestamp") == Str(nowIso)
  {
    var kind' := if kind == Undefined then Str("info") else kind;
    map["userId" := userId, "message" := message, "type" := kind', "read" := Bool(false),
        "timestamp" := Str(nowIso)]
  }

  /** `create`: append one notification under a fresh id and wrap it. */
  method Create(store: Store, userId: Value, message: Value, kind: Value, nowIso: string, now: int)
    returns (n: Notification)
    modifies store
    ensures n == NotificationOf(Stamped(NoteRecord(userId, message, kind, nowIso), now), nowIso)
    ensures store.data == old(store.data)[Notifications :=
      old(store.GetAll(Notifications)) + [Stamped(NoteRecord(userId, message, kind, nowIso), now)]]
  {
    var kind' := if kind == Undefined then Str("info") else kind;
    var note := map["userId" := userId, "message" := message, "type" := kind', "read" := Bool(false),
                    "timestamp" := Str(nowIso)];
    var created := store.Create(Notifications, note, now);
    n := NotificationOf(created, nowIso);
  }

  /** A created notification is unread, has the given type (or 'info')
      and is the user's last unread notification: the unread list grows by
      exactly that one. */
  lemma CreateAddsUnread(raw: seq<Record>, userId: Value, message: Value, kind: Value,
                         nowIso: string, now: int, readIso: string)
    ensures var created := Stamped(NoteRecord(userId, message, kind, nowIso), now);
      var n := NotificationOf(created, readIso);
      n.read == Bool(false) && n.kind == (if kind == Undefined || !Truthy(kind) then Str("info") else kind) &&
      GetUnread(raw + [created], userId, readIso) == GetUnread(raw, userId, readIso) + [n]
  {
    var created := Stamped(NoteRecord(userId, message, kind, nowIso), now);
    var p := (x: Record) => Get(x, "userId") == userId;
    Seqs.FilterAppend(raw, [created], p);
    Seqs.FilterKeepsAll([created], p);
    var all := GetAll(raw + [created], userId, readIso);
    var before := GetAll(raw, userId, readIso);
    assert all == before + [NotificationOf(created, readIso)];
    Seqs.FilterAppend(before, [NotificationOf(created, readIso)], IsUnread);
    Seqs.FilterKeepsAll([NotificationOf(created, readIso)], IsUnread);
  }

  /** The updates `markAsRead` writes. */
  function ReadUpdate(): Record
  {
    map["read" := Bool(true)]
  }

  /** `markAsRead`: set the read flag of the first notification with that
      id; an unknown id makes the store return null, and wrapping null
      throws. */
  method MarkAsRead(store: Store, id: Value, nowIso: string) returns (r: Result<Notification>)
    modifies store
    ensures r.Err? <==> FindIndex(old(store.GetAll(Notifications)), id).None?
    ensures r.Err? ==> r.error == ReadOfNull && store.data == old(store.data)
    ensures r.Ok? ==> r.value.read == Bool(true) && r.value.id == id
    ensures r.Ok? ==> store.data == old(store.data)[Notifications := Updated(old(store.GetAll(Notifications)), id, ReadUpdate())]
  {
    var written := store.Update(Notifications, id, map["read" := Bool(true)]);
    if written.None? {
      return Err(ReadOfNull);
    }
    return Ok(NotificationOf(written.value, nowIso));
  }

  /** Marking as read touches that record alone, leaves it read, and
      marking it again changes nothing. */
  lemma MarkAsReadIdempotent(raw: seq<Record>, id: Value, nowIso: string)
    requires FindIndex(raw, id).Some?
    ensures var i := FindIndex(raw, id).value;
      var after := Updated(raw, id, ReadUpdate());
      NotificationOf(after[i], nowIso).read == Bool(true) &&
      (forall j :: 0 <= j < |raw| && j != i ==> after[j] == raw[j]) &&
      Updated(after, id, ReadUpdate()) == after
  {
    UpdatedIdempotent(raw, id, ReadUpdate());
  }

  /** The two records seeded for a user, in order. */
  function Welcome(userId: Value, now1: int, iso1: string, now2: int, iso2: string): (added: seq<Record>)
    ensures |added| == 2
    ensures forall x :: x in added ==> Get(x, "userId") == userId
  {
    var a := Stamped(NoteRecord(userId, Str(WelcomeMessage), Str("info"), iso1), now1);
    var b := Stamped(NoteRecord(userId, Str(DueMessage), Str("warning"), iso2), now2);
    StampedGet(NoteRecord(userId, Str(WelcomeMessage), Str("info"), iso1), now1, "userId");
    StampedGet(NoteRecord(userId, Str(DueMessage), Str("warning"), iso2), now2, "userId");
    [a, b]
  }

  const WelcomeMessage := "Welcome to your new Task Dashboard!"
  const DueMessage := "Task \"API Authentication\" is due in 2 days."

  /** The store contents after `checkDeadlines`: a user without any
      notification, read or not, gets a welcome and a due-date notice;
      otherwise nothing changes. */
  function SeedIfEmpty(raw: seq<Record>, userId: Value, now1: int, iso1: string, now2: int, iso2: string)
    : (r: seq<Record>)
    ensures raw <= r
    ensures |ForUser(r, userId)| >= 1
  {
    if |ForUser(raw, userId)| == 0 then
      var added := Welcome(userId, now1, iso1, now2, iso2);
      assert added[0] in ForUser(raw + added, userId) by {
        assert added[0] in raw + added;
      }
      raw + added
    else raw
  }

  /** `checkDeadlines`. */
  method CheckDeadlines(store: Store, userId: Value, nowIso: string, now1: int, iso1: string, now2: int, iso2: string)
    modifies store
    ensures store.GetAll(Notifications) == SeedIfEmpty(old(store.GetAll(Notifications)), userId, now1, iso1, now2, iso2)
    ensures |ForUser(old(store.GetAll(Notifications)), userId)| > 0 ==> store.data == old(store.data)
    ensures |ForUser(old(store.GetAll(Notifications)), userId)| == 0 ==>
      store.data == old(store.data)[Notifications := SeedIfEmpty(old(store.GetAll(Notifications)), userId, now1, iso1, now2, iso2)]
  {
    var existing := GetAll(store.GetAll(Notifications), userId, nowIso);
    if |existing| == 0 {
      AddWelcome(store, userId, now1, iso1, now2, iso2);
    }
  }

  /** The two `create` calls of `checkDeadlines`. */
  method AddWelcome(store: Store, userId: Value, now1: int, iso1: string, now2: int, iso2: string)
    modifies store
    ensures store.data == old(store.data)[Notifications :=
      old(store.GetAll(Notifications)) + Welcome(userId, now1, iso1, now2, iso2)]
  {
    ghost var added := Welcome(userId, now1, iso1, now2, iso2);
    var welcome := Create(store, userId, Str(WelcomeMessage), Str("info"), iso1, now1);
    var due := Create(store, userId, Str(DueMessage), Str("warning"), iso2, now2);
    assert old(store.GetAll(Notifications)) + [added[0]] + [added[1]] == old(store.GetAll(Notifications)) + added;
  }

  /** A user with no notification receives exactly two, an 'info' welcome
      followed by a 'warning' due-date notice, both unread. */
  lemma SeedIfEmptyAddsTwo(raw: seq<Record>, userId: Value, now1: int, iso1: string, now2: int, iso2: string, nowIso: string)
    requires |ForUser(raw, userId)| == 0
    ensures var ns := GetAll(SeedIfEmpty(raw, userId, now1, iso1, now2, iso2), userId, nowIso);
      |ns| == 2 &&
      ns[0].kind == Str("info") && ns[0].message == Str(WelcomeMessage) && ns[0].read == Bool(false) &&
      ns[1].kind == Str("warning") && ns[1].message == Str(DueMessage) && ns[1].read == Bool(false)
  {
    var added := Welcome(userId, now1, iso1, now2, iso2);
    var p := (x: Record) => Get(x, "userId") == userId;
    Seqs.FilterAppend(raw, added, p);
    Seqs.FilterKeepsAll(added, p);
    StampedGet(NoteRecord(userId, Str(WelcomeMessage), Str("info"), iso1), now1, "type");
    StampedGet(NoteRecord(userId, Str(WelcomeMessage), Str("info"), iso1), now1, "message");
    StampedGet(NoteRecord(userId, Str(WelcomeMessage), Str("info"), iso1), now1, "read");
    StampedGet(NoteRecord(userId, Str(DueMessage), Str("warning"), iso2), now2, "type");
    StampedGet(NoteRecord(userId, Str(DueMessage), Str("warning"), iso2), now2, "message");
    StampedGet(NoteRecord(userId, Str(DueMessage), Str("warning"), iso2), now2, "read");
  }

  /** Checking twice is checking once, whatever the clocks read the second
      time. */
  lemma SeedIfEmptyIdempotent(raw: seq<Record>, userId: Value, now1: int, iso1: string, now2: int, iso2: string,
                              later1: int, laterIso1: string, later2: int, laterIso2: string)
    ensures var once := SeedIfEmpty(raw, userId, now1, iso1, now2, iso2);
      SeedIfEmpty(once, userId, later1, laterIso1, later2, laterIso2) == once
  {
    if |ForUser(raw, userId)| == 0 {
      var added := Welcome(userId, now1, iso1, now2, iso2);
      var p := (x: Record) => Get(x, "userId") == userId;
      Seqs.FilterAppend(raw, added, p);
      Seqs.FilterKeepsAll(added, p);
    }
  }
}
