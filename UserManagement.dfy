/** The user administration page: the user list with its search and role
    filter, the status counts, account creation and user editing. */
module UserManagement {
  import opened Text
  import Seqs
  import RoleContext

  datatype User = User(id: int, name: string, email: string, role: string, department: string,
                       status: string, lastLogin: string, avatar: string)

  /** The list the page starts with. */
  function DefaultUsers(): seq<User>
  {
    [ User(1, "Ibrahim Rouass", "ibrahim@bpms.io", "Admin", "Engineering", "active", "2 min ago", "IR"),
      User(2, "Sarah Martinez", "sarah.m@bpms.io", "Manager", "Marketing", "active", "15 min ago", "SM"),
      User(3, "Ahmed Hassan", "ahmed.h@bpms.io", "Employee", "Engineering", "active", "1h ago", "AH"),
      User(4, "Clara Dupont", "clara.d@bpms.io", "HR", "Human Resources", "active", "3h ago", "CD"),
      User(5, "John Chen", "john.c@bpms.io", "Employee", "Design", "inactive", "5 days ago", "JC"),
      User(6, "Fatima Zahra", "fatima.z@bpms.io", "Manager", "QA", "active", "30 min ago", "FZ"),
      User(7, "Bob Tanaka", "bob.t@bpms.io", "Employee", "Engineering", "active", "2h ago", "BT"),
      User(8, "Diana Kim", "diana.k@bpms.io", "Employee", "Engineering", "pending", "Never", "DK"),
      User(9, "Carlos Ruiz", "carlos.r@bpms.io", "Observer", "Design", "active", "1 day ago", "CR"),
      User(10, "Amira Belkacem", "amira.b@bpms.io", "Employee", "Finance", "active", "45 min ago", "AB") ]
  }

  /** The row test of the table: the search text occurs, ignoring case, in
      the name or the e-mail, and the role filter is 'all' or the role. */
  predicate Matches(u: User, search: string, roleFilter: string)
  {
    (IncludesIgnoreCase(u.name, search) || IncludesIgnoreCase(u.email, search))
    && (roleFilter == "all" || u.role == roleFilter)
  }

  function MatchesFilters(search: string, roleFilter: string): User -> bool
  {
    (u: User) => Matches(u, search, roleFilter)
  }

  /** `filtered`: exactly the matching users, in list order. */
  function Filtered(users: seq<User>, search: string, roleFilter: string): (r: seq<User>)
    ensures forall u :: u in r <==> u in users && Matches(u, search, roleFilter)
    ensures Seqs.IsSubseq(r, users)
  {
    Seqs.Filter(users, MatchesFilters(search, roleFilter))
  }

  /** The page as it opens (empty search, filter 'all') lists everyone. */
  lemma {:induction false} NoFilterListsAll(users: seq<User>)
    ensures Filtered(users, "", "all") == users
  {
    forall i | 0 <= i < |users|
      ensures MatchesFilters("", "all")(users[i])
    {
      assert IsPrefix(Lower(""), Lower(users[i].name));
    }
    Seqs.FilterKeepsAll(users, MatchesFilters("", "all"));
  }

  predicate IsActive(u: User)
  {
    u.status == "active"
  }

  predicate IsPending(u: User)
  {
    u.status == "pending"
  }

  /** `activeCount`. */
  function ActiveCount(users: seq<User>): (n: nat)
    ensures n <= |users|
  {
    |Seqs.Filter(users, IsActive)|
  }

  /** `pendingCount`. */
  function PendingCount(users: seq<User>): (n: nat)
    ensures n <= |users|
  {
    |Seqs.Filter(users, IsPending)|
  }

  /** No user is counted both active and pending. */
  lemma {:induction false} CountsDisjoint(users: seq<User>)
    ensures ActiveCount(users) + PendingCount(users) <= |users|
    decreases |users|
  {
    if users != [] {
      CountsDisjoint(users[1..]);
    }
  }

  /** Counting over a list split in two adds the counts of the parts. */
  lemma {:induction false} ActiveSplit(a: seq<User>, b: seq<User>)
    ensures ActiveCount(a + b) == ActiveCount(a) + ActiveCount(b)
  {
    Seqs.FilterAppend(a, b, IsActive);
  }

  lemma {:induction false} AllActive(a: seq<User>)
    requires forall i :: 0 <= i < |a| ==> a[i].status == "active"
    ensures ActiveCount(a) == |a|
  {
    Seqs.FilterKeepsAll(a, IsActive);
  }

  lemma {:induction false} ActiveOfShape(s: seq<User>)
    requires |s| == 10
    requires forall i :: 0 <= i < 10 ==> (s[i].status == "active" <==> i != 4 && i != 7)
    ensures ActiveCount(s) == 8
  {
    assert s == s[..4] + ([s[4]] + (s[5..7] + ([s[7]] + s[8..])));
    AllActive(s[..4]);
    AllActive(s[5..7]);
    AllActive(s[8..]);
    assert ActiveCount([s[4]]) == 0 && ActiveCount([s[7]]) == 0;
    ActiveSplit([s[7]], s[8..]);
    ActiveSplit(s[5..7], [s[7]] + s[8..]);
    ActiveSplit([s[4]], s[5..7] + ([s[7]] + s[8..]));
    ActiveSplit(s[..4], [s[4]] + (s[5..7] + ([s[7]] + s[8..])));
  }

  lemma DefaultActive()
    ensures ActiveCount(DefaultUsers()) == 8
  {
    ActiveOfShape(DefaultUsers());
  }

  lemma {:induction false} PendingOfShape(s: seq<User>)
    requires |s| == 10
    requires forall i :: 0 <= i < 10 ==> (s[i].status == "pending" <==> i == 7)
    ensures PendingCount(s) == 1
  {
    var init, rest := s[..7], s[8..];
    assert Seqs.Filter(init, IsPending) == [] by {
      Seqs.FilterDropsAll(init, IsPending);
    }
    assert Seqs.Filter(rest, IsPending) == [] by {
      Seqs.FilterDropsAll(rest, IsPending);
    }
    assert Seqs.Filter([s[7]], IsPending) == [s[7]] by {
      Seqs.FilterKeepsAll([s[7]], IsPending);
    }
    assert s == init + ([s[7]] + rest);
    Seqs.FilterAppend([s[7]], rest, IsPending);
    Seqs.FilterAppend(init, [s[7]] + rest, IsPending);
  }

  lemma DefaultPending()
    ensures PendingCount(DefaultUsers()) == 1
  {
    PendingOfShape(DefaultUsers());
  }

  /** Of the starting list, eight users are active and one is pending. */
  lemma DefaultCounts()
    ensures |DefaultUsers()| == 10 && ActiveCount(DefaultUsers()) == 8 && PendingCount(DefaultUsers()) == 1
  {
    DefaultActive();
    DefaultPending();
  }

  /** Only administrators and HR managers get the create button. */
  predicate CanCreate(roleId: string)
  {
    roleId == "admin" || roleId == "hr"
  }

  /** Of the four roles, the administrator and the HR manager get the
      create button, the manager and the employee do not. */
  lemma CreatorsAreAdminAndHr()
    ensures forall r :: r in RoleContext.Roles ==> (CanCreate(r.id) <==> r == RoleContext.Admin || r == RoleContext.Hr)
  {
  }

  /** The role of the accounts the page creates: HR accounts for an
      administrator, employee accounts for anyone else. */
  function CreateRoleType(roleId: string): (r: string)
    ensures r == "HR" <==> roleId == "admin"
    ensures r == "HR" || r == "Employee"
  {
    if roleId == "admin" then "HR" else "Employee"
  }

  /** The creation form. */
  datatype Form = Form(firstName: string, lastName: string, email: string, department: string)

  const EmptyForm := Form("", "", "", "")

  /** `s.charAt(0)`: the first character, or nothing for an empty string. */
  function FirstChar(s: string): (r: string)
    ensures |r| <= 1 && IsPrefix(r, s)
    ensures s != [] ==> |r| == 1
  {
    if s == [] then [] else [s[0]]
  }

  /** The account built from the form by `handleCreateUser`. */
  function NewUser(users: seq<User>, form: Form, roleType: string): (u: User)
    ensures u.id == |users| + 1 && u.role == roleType && u.status == "pending" && u.lastLogin == "Never"
    ensures u.name == Trim(form.firstName + " " + form.lastName)
    ensures u.avatar == Upper(FirstChar(form.firstName) + FirstChar(form.lastName)) && |u.avatar| <= 2
    ensures form.email != "" ==> u.email == form.email
    ensures form.email == "" ==>
      u.email == Lower(form.firstName) + "." + Lower(FirstChar(form.lastName)) + "@bpms.io"
    ensures form.department != "" ==> u.department == form.department
    ensures form.department == "" ==>
      u.department == (if roleType == "HR" then "Human Resources" else "Engineering")
  {
    var fullName := Trim(form.firstName + " " + form.lastName);
    var initials := Upper(FirstChar(form.firstName) + FirstChar(form.lastName));
    var emailPrefix := Lower(form.firstName) + "." + Lower(FirstChar(form.lastName));
    User(|users| + 1, fullName,
         if form.email != "" then form.email else emailPrefix + "@bpms.io",
         roleType,
         if form.department != "" then form.department
         else if roleType == "HR" then "Human Resources" else "Engineering",
         "pending", "Never", initials)
  }

  /** The changes of the edit dialog. */
  datatype EditForm = EditForm(name: string, email: string, role: string, department: string, status: string)

  predicate IsWord(w: string)
  {
    w != ""
  }

  /** The non-empty pieces of a split name, in order. Repeated, leading
      or trailing spaces leave empty pieces, whose `w[0]` is `undefined`
      and is dropped by `join('')`. */
  function Words(pieces: seq<string>): (ws: seq<string>)
    ensures forall k :: 0 <= k < |ws| ==> ws[k] != ""
    ensures forall w :: w in ws <==> w in pieces && w != ""
  {
    var ws := Seqs.Filter(pieces, IsWord);
    assert forall k :: 0 <= k < |ws| ==> ws[k] in ws;
    ws
  }

  /** `words.map(w => w[0]).join('')`: one character per word, its first,
      nothing for an empty piece. */
  function WordInitials(words: seq<string>): (r: string)
    ensures |r| == |Words(words)|
    ensures forall k :: 0 <= k < |r| ==> r[k] == Words(words)[k][0]
    decreases |words|
  {
    if words == [] then []
    else
      var rest := WordInitials(words[1..]);
      assert Words(words) == if words[0] == "" then Words(words[1..]) else [words[0]] + Words(words[1..]);
      FirstChar(words[0]) + rest
  }

  /** The avatar the edit dialog gives: the first characters of the first
      two words of the name, upper-cased; fewer when the name has fewer
      words. */
  function EditAvatar(name: string): (r: string)
    ensures var ws := Words(Split(name, ' '));
      |r| == (if |ws| < 2 then |ws| else 2) &&
      forall k :: 0 <= k < |r| ==> r[k] == UpperChar(ws[k][0])
  {
    var all := Upper(WordInitials(Split(name, ' ')));
    all[..if |all| < 2 then |all| else 2]
  }

  /** A user after the edit dialog saves its form over them. */
  function Edited(u: User, f: EditForm): (r: User)
    ensures r.id == u.id && r.lastLogin == u.lastLogin
    ensures r.name == f.name && r.email == f.email && r.role == f.role && r.department == f.department
    ensures r.status == f.status && r.avatar == EditAvatar(f.name)
  {
    u.(name := f.name, email := f.email, role := f.role, department := f.department, status := f.status,
       avatar := EditAvatar(f.name))
  }

  /** The list after `handleEditSave`: every user with the edited id gets
      the form, the others stay as they were. */
  function EditedList(users: seq<User>, id: int, f: EditForm): (r: seq<User>)
    ensures |r| == |users|
    ensures forall i :: 0 <= i < |users| ==> r[i] == if users[i].id == id then Edited(users[i], f) else users[i]
  {
    Seqs.Map(users, (u: User) => if u.id == id then Edited(u, f) else u)
  }

  function UserId(u: User): int
  {
    u.id
  }

  /** The page's state. */
  class Directory {
    var users: seq<User>
    var form: Form
    var successMsg: string

    ghost predicate Valid()
      reads this
    {
      Seqs.DenseIds(users, UserId)
    }

    constructor()
      ensures users == DefaultUsers() && form == EmptyForm && successMsg == ""
      ensures Valid()
    {
      DefaultIdsDense();
      users := DefaultUsers();
      form := EmptyForm;
      successMsg := "";
    }

    /** `handleCreateUser` for the session's role: the new account goes to
        the front of the list, the form is reset and a message names the
        account. */
    method CreateUser(roleId: string)
      requires Valid()
      modifies this
      ensures Valid()
      ensures users == [NewUser(old(users), old(form), CreateRoleType(roleId))] + old(users)
      ensures form == EmptyForm
      ensures successMsg == CreateRoleType(roleId) + " account for \"" + users[0].name + "\" created successfully!"
    {
      var roleType := CreateRoleType(roleId);
      var newUser := NewUser(users, form, roleType);
      Seqs.PrependFresh(users, newUser, UserId);
      users := [newUser] + users;
      assert users[0] == newUser;
      form := EmptyForm;
      successMsg := roleType + " account for \"" + newUser.name + "\" created successfully!";
    }

    /** `handleEditSave` for the user being edited. */
    method EditSave(editId: int, f: EditForm)
      requires Valid()
      modifies this
      ensures Valid()
      ensures users == EditedList(old(users), editId, f)
      ensures form == old(form)
      ensures successMsg == "User \"" + f.name + "\" updated successfully!"
    {
      users := Seqs.Map(users, (u: User) => if u.id == editId then Edited(u, f) else u);
      successMsg := "User \"" + f.name + "\" updated successfully!";
    }
  }

  /** The starting list has dense ids. */
  lemma DefaultIdsDense()
    ensures Seqs.DenseIds(DefaultUsers(), UserId)
  {
  }

  /** A created account is pending: the pending count goes up by one and
      the active count stays. */
  lemma CreateCounts(users: seq<User>, form: Form, roleType: string)
    ensures var after := [NewUser(users, form, roleType)] + users;
      PendingCount(after) == PendingCount(users) + 1 && ActiveCount(after) == ActiveCount(users)
  {
    var u := NewUser(users, form, roleType);
    Seqs.FilterAppend([u], users, IsPending);
    Seqs.FilterAppend([u], users, IsActive);
  }

  /** Editing touches only the users with the edited id: any other user is
      still in the list. */
  lemma EditKeepsOthers(users: seq<User>, id: int, f: EditForm, u: User)
    requires u in users && u.id != id
    ensures u in EditedList(users, id, f)
  {
    var i :| 0 <= i < |users| && users[i] == u;
    assert EditedList(users, id, f)[i] == u;
  }

  /** A one-word name gives a one-letter avatar. */
  lemma EditAvatarOneWord(word: string)
    requires word != "" && ' ' !in word
    ensures EditAvatar(word) == [UpperChar(word[0])]
  {
    assert Split(word, ' ') == [word];
    assert Words([word]) == [word];
  }

  /** A doubled space leaves an empty piece, which gives no initial:
      "ann  lee" has the same avatar as "ann lee". */
  lemma EditAvatarDoubleSpace(first: string, last: string)
    requires first != "" && last != "" && ' ' !in first && ' ' !in last
    ensures EditAvatar(first + "  " + last) == [UpperChar(first[0]), UpperChar(last[0])]
  {
    SplitJoin([first, "", last], ' ');
    assert Join([first, "", last], [' ']) == first + "  " + last by {
      assert Join([first, "", last][1..], [' ']) == " " + last by {
        assert Join([first, "", last][1..][1..], [' ']) == last;
      }
    }
    assert Words([first, "", last]) == [first, last] by {
      assert [first, "", last][1..] == ["", last];
      assert ["", last][1..] == [last];
      assert Seqs.Filter([last], IsWord) == [last];
      assert Seqs.Filter(["", last], IsWord) == [last];
    }
  }

  /** The edit avatar of a two-word name is the two upper-cased initials. */
  lemma EditAvatarTwoWords(first: string, last: string)
    requires first != "" && last != "" && ' ' !in first && ' ' !in last
    ensures EditAvatar(first + " " + last) == Upper([first[0], last[0]])
  {
    SplitJoin([first, last], ' ');
    assert Join([first, last], [' ']) == first + " " + last by {
      assert Join([first, last][1..], [' ']) == last;
    }
    assert WordInitials([first, last]) == [first[0]] + ([last[0]] + WordInitials([]));
  }
}
