/** The bell menu of the top bar: a list of notifications the user can mark
    read, mark all read, or dismiss. */
module NotificationDropdown {
  import Seqs

  /** One entry of the menu; `kind` is the JavaScript field `type`. */
  datatype Item = Item(id: int, kind: string, title: string, description: string, time: string, read: bool)

  /** The list the menu starts with: three unread entries, then three read
      ones. */
  function InitialItems(): seq<Item>
  {
    [ Item(1, "approval", "Leave request approved",
           "Your vacation request for Feb 20\U{2013}24 has been approved by Mohamed A.", "2 min ago", false),
      Item(2, "alert", "Onboarding SLA exceeded",
           "Diana Kim's onboarding has exceeded the 5-day SLA at background check stage.", "15 min ago", false),
      Item(3, "workflow", "Workflow updated",
           "\"Employee Onboarding\" workflow was modified and saved as v1.3.", "1h ago", false),
      Item(4, "task", "Task assigned to you",
           "You have been assigned \"Implement Multi-tenant Isolation\" in Sprint 14.", "2h ago", true),
      Item(5, "user", "New team member",
           "Youssef El Amrani has joined the Engineering team.", "3h ago", true),
      Item(6, "document", "Document ready",
           "Your salary certificate (PDF) is ready for download.", "5h ago", true) ]
  }

  predicate IsUnread(n: Item)
  {
    !n.read
  }

  /** `unreadCount`: the number of entries not yet read. */
  function UnreadCount(items: seq<Item>): (c: nat)
    ensures c <= |items|
  {
    |Seqs.Filter(items, IsUnread)|
  }

  /** The badge shows zero exactly when every entry is read. */
  lemma UnreadZeroIff(items: seq<Item>)
    ensures UnreadCount(items) == 0 <==> forall i :: 0 <= i < |items| ==> items[i].read
  {
    if forall i :: 0 <= i < |items| ==> items[i].read {
      Seqs.FilterDropsAll(items, IsUnread);
    } else {
      var i :| 0 <= i < |items| && !items[i].read;
      assert items[i] in Seqs.Filter(items, IsUnread);
    }
  }

  /** The list after `markAllRead`: every entry read, nothing else changed. */
  function AllRead(items: seq<Item>): (r: seq<Item>)
    ensures |r| == |items|
    ensures forall i :: 0 <= i < |items| ==> r[i] == items[i].(read := true)
  {
    Seqs.Map(items, (n: Item) => n.(read := true))
  }

  /** The list after `markRead(id)`: the entries carrying `id` become read,
      the others are untouched. */
  function ReadOne(items: seq<Item>, id: int): (r: seq<Item>)
    ensures |r| == |items|
    ensures forall i :: 0 <= i < |items| ==> r[i] == if items[i].id == id then items[i].(read := true) else items[i]
  {
    Seqs.Map(items, (n: Item) => if n.id == id then n.(read := true) else n)
  }

  function Keeps(id: int): Item -> bool
  {
    (n: Item) => n.id != id
  }

  /** The list after `dismiss(id)`: exactly the entries not carrying `id`,
      in their original order. */
  function Without(items: seq<Item>, id: int): (r: seq<Item>)
    ensures forall n :: n in r <==> n in items && n.id != id
    ensures Seqs.IsSubseq(r, items)
  {
    Seqs.Filter(items, Keeps(id))
  }

  /** The menu's state. */
  class Dropdown {
    var items: seq<Item>

    constructor()
      ensures items == InitialItems()
    {
      items := InitialItems();
    }

    method MarkAllRead()
      modifies this
      ensures items == AllRead(old(items))
    {
      items := Seqs.Map(items, (n: Item) => n.(read := true));
    }

    method MarkRead(id: int)
      modifies this
      ensures items == ReadOne(old(items), id)
    {
      items := Seqs.Map(items, (n: Item) => if n.id == id then n.(read := true) else n);
    }

    method Dismiss(id: int)
      modifies this
      ensures items == Without(old(items), id)
    {
      items := Seqs.Filter(items, Keeps(id));
    }
  }

  /** The menu opens with three of its six entries unread. */
  lemma InitialUnread()
    ensures |InitialItems()| == 6 && UnreadCount(InitialItems()) == 3
  {
    var s := InitialItems();
    assert Seqs.Filter(s[3..], IsUnread) == [] by {
      Seqs.FilterDropsAll(s[3..], IsUnread);
    }
    assert s == [s[0], s[1], s[2]] + s[3..];
    assert Seqs.Filter([s[0], s[1], s[2]], IsUnread) == [s[0], s[1], s[2]] by {
      Seqs.FilterKeepsAll([s[0], s[1], s[2]], IsUnread);
    }
    Seqs.FilterAppend([s[0], s[1], s[2]], s[3..], IsUnread);
  }

  /** After marking all read the badge shows zero, and the same entries
      remain in the same order. */
  lemma MarkAllReadClears(items: seq<Item>)
    ensures UnreadCount(AllRead(items)) == 0
    ensures forall i :: 0 <= i < |items| ==> AllRead(items)[i].id == items[i].id
  {
    UnreadZeroIff(AllRead(items));
  }

  /** Marking an entry read a second time changes nothing. */
  lemma MarkReadIdempotent(items: seq<Item>, id: int)
    ensures ReadOne(ReadOne(items, id), id) == ReadOne(items, id)
  {
  }

  /** Marking an id no entry carries changes nothing. */
  lemma MarkReadUnknown(items: seq<Item>, id: int)
    requires forall i :: 0 <= i < |items| ==> items[i].id != id
    ensures ReadOne(items, id) == items
  {
  }

  /** Marking one entry read never raises the unread count. */
  lemma {:induction false} MarkReadNeverRaises(items: seq<Item>, id: int)
    ensures UnreadCount(ReadOne(items, id)) <= UnreadCount(items)
    decreases |items|
  {
    var r := ReadOne(items, id);
    if items != [] {
      MarkReadNeverRaises(items[1..], id);
      assert ReadOne(items, id)[1..] == ReadOne(items[1..], id);
      assert Seqs.Filter(items, IsUnread)
        == (if IsUnread(items[0]) then [items[0]] else []) + Seqs.Filter(items[1..], IsUnread);
      assert Seqs.Filter(r, IsUnread)
        == (if IsUnread(r[0]) then [r[0]] else []) + Seqs.Filter(r[1..], IsUnread);
    }
  }

  /** Dismissing the same id twice is dismissing it once. */
  lemma DismissIdempotent(items: seq<Item>, id: int)
    ensures Without(Without(items, id), id) == Without(items, id)
  {
    Seqs.FilterFilter(items, Keeps(id), Keeps(id), Keeps(id));
  }
}
