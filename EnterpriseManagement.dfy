/** The tenant administration page: which companies a role sees, the
    search over them, the totals and industry badges, and company creation. */
module EnterpriseManagement {
  import opened Text
  import Seqs
  import opened RoleContext

  /** A tenant company; `companyId` is the JavaScript `company_id`. */
  datatype Enterprise = Enterprise(id: int, companyId: int, name: string, industry: string, employees: int,
                                   location: string, email: string, phone: string, status: string,
                                   plan: string, created: string)

  /** The list the page starts with. */
  function DefaultEnterprises(): seq<Enterprise>
  {
    [ Enterprise(1, 1, "TechCorp International", "Technology", 245, "Casablanca, Morocco", "contact@techcorp.ma",
                 "+212 522 123 456", "active", "Enterprise", "Jan 15, 2025"),
      Enterprise(2, 2, "FinServe Global", "Finance", 189, "Rabat, Morocco", "info@finserve.ma",
                 "+212 537 654 321", "active", "Business", "Mar 8, 2025"),
      Enterprise(3, 3, "MediCare Plus", "Healthcare", 156, "Marrakech, Morocco", "hello@medicare.ma",
                 "+212 524 789 012", "active", "Enterprise", "Jun 22, 2025"),
      Enterprise(4, 4, "EduLearn Academy", "Education", 112, "Fes, Morocco", "admin@edulearn.ma",
                 "+212 535 345 678", "trial", "Starter", "Nov 3, 2025"),
      Enterprise(5, 5, "RetailMax Holdings", "Retail", 198, "Tangier, Morocco", "ops@retailmax.ma",
                 "+212 539 901 234", "active", "Business", "Sep 14, 2025"),
      Enterprise(6, 6, "BuildPro Services", "Construction", 87, "Agadir, Morocco", "info@buildpro.ma",
                 "+212 528 567 890", "suspended", "Starter", "Dec 1, 2025"),
      Enterprise(7, 7, "LogiTrans SARL", "Logistics", 134, "Kenitra, Morocco", "contact@logitrans.ma",
                 "+212 537 234 567", "active", "Business", "Feb 10, 2026") ]
  }

  /** One industry badge; `text` is the JavaScript `label`. */
  datatype IndustryStat = IndustryStat(text: string, count: int, color: string)

  /** `industryStats`, the administrator's fixed badge table. */
  const IndustryStats: seq<IndustryStat> := [
    IndustryStat("Technology", 1, "brand"),
    IndustryStat("Finance", 1, "violet"),
    IndustryStat("Healthcare", 1, "success"),
    IndustryStat("Education", 1, "info"),
    IndustryStat("Retail", 1, "warning"),
    IndustryStat("Construction", 1, "danger"),
    IndustryStat("Logistics", 1, "pink")
  ]

  function BelongsTo(companyId: int): Enterprise -> bool
  {
    (e: Enterprise) => e.companyId == companyId
  }

  /** `visibleEnterprises`: the administrator sees every company, any other
      role only those of its own company, in list order. */
  function Visible(enterprises: seq<Enterprise>, role: Role): (r: seq<Enterprise>)
    ensures role.id == "admin" ==> r == enterprises
    ensures role.id != "admin" ==> forall e :: e in r <==> e in enterprises && e.companyId == role.companyId
    ensures Seqs.IsSubseq(r, enterprises)
  {
    if role.id == "admin" then
      assert Seqs.IsSubseq(enterprises, enterprises) by {
        Seqs.SubseqRefl(enterprises);
      }
      enterprises
    else Seqs.Filter(enterprises, BelongsTo(role.companyId))
  }

  predicate Matches(e: Enterprise, search: string)
  {
    IncludesIgnoreCase(e.name, search) || IncludesIgnoreCase(e.industry, search)
  }

  function MatchesSearch(search: string): Enterprise -> bool
  {
    (e: Enterprise) => Matches(e, search)
  }

  /** `filtered`: the visible companies whose name or industry contains the
      search text, ignoring case. */
  function Searched(visible: seq<Enterprise>, search: string): (r: seq<Enterprise>)
    ensures forall e :: e in r <==> e in visible && Matches(e, search)
    ensures Seqs.IsSubseq(r, visible)
  {
    Seqs.Filter(visible, MatchesSearch(search))
  }

  /** `totalEmployees`: the head counts of the visible companies, summed
      left to right from 0. */
  function TotalEmployees(visible: seq<Enterprise>): (t: int)
    ensures (forall i :: 0 <= i < |visible| ==> visible[i].employees >= 0) ==>
      t >= 0 && forall i :: 0 <= i < |visible| ==> visible[i].employees <= t
    decreases |visible|
  {
    if visible == [] then 0
    else
      var front := visible[..|visible| - 1];
      assert forall i :: 0 <= i < |front| ==> front[i] == visible[i];
      TotalEmployees(front) + visible[|visible| - 1].employees
  }

  /** The total of a list split in two is the sum of the parts' totals. */
  lemma {:induction false} TotalAppend(a: seq<Enterprise>, b: seq<Enterprise>)
    ensures TotalEmployees(a + b) == TotalEmployees(a) + TotalEmployees(b)
    decreases |b|
  {
    if b != [] {
      assert (a + b)[..|a + b| - 1] == a + b[..|b| - 1];
      TotalAppend(a, b[..|b| - 1]);
    } else {
      assert a + b == a;
    }
  }

  predicate IsActive(e: Enterprise)
  {
    e.status == "active"
  }

  /** `activeCount`. */
  function ActiveCount(visible: seq<Enterprise>): (n: nat)
    ensures n <= |visible|
  {
    |Seqs.Filter(visible, IsActive)|
  }

  /** The active count of a list split in two is the sum of the parts'
      counts. */
  lemma ActiveSplit(a: seq<Enterprise>, b: seq<Enterprise>)
    ensures ActiveCount(a + b) == ActiveCount(a) + ActiveCount(b)
  {
    Seqs.FilterAppend(a, b, IsActive);
  }

  /** A new company starts on trial, so creating one leaves the active
      count where it was. */
  lemma CreateKeepsActive(enterprises: seq<Enterprise>, form: Form, created: string)
    ensures ActiveCount([NewCompany(enterprises, form, created)] + enterprises) == ActiveCount(enterprises)
  {
    var e := NewCompany(enterprises, form, created);
    ActiveSplit([e], enterprises);
    Seqs.FilterDropsAll([e], IsActive);
  }

  /** Five of the seven starting companies are active (EduLearn Academy is
      on trial and BuildPro Services suspended). */
  lemma DefaultActive()
    ensures ActiveCount(DefaultEnterprises()) == 5
  {
    var d := DefaultEnterprises();
    assert d == [d[0], d[1], d[2], d[3], d[4], d[5], d[6]];
    FiveOfSeven(d[0], d[1], d[2], d[3], d[4], d[5], d[6]);
  }

  lemma FiveOfSeven(e0: Enterprise, e1: Enterprise, e2: Enterprise, e3: Enterprise, e4: Enterprise,
                    e5: Enterprise, e6: Enterprise)
    requires IsActive(e0) && IsActive(e1) && IsActive(e2) && !IsActive(e3)
    requires IsActive(e4) && !IsActive(e5) && IsActive(e6)
    ensures ActiveCount([e0, e1, e2, e3, e4, e5, e6]) == 5
  {
    ActiveCons(e6, []);
    ActiveCons(e5, [e6]);
    ActiveCons(e4, [e5, e6]);
    ActiveCons(e3, [e4, e5, e6]);
    ActiveCons(e2, [e3, e4, e5, e6]);
    ActiveCons(e1, [e2, e3, e4, e5, e6]);
    ActiveCons(e0, [e1, e2, e3, e4, e5, e6]);
  }

  /** A company in front adds one to the count exactly when it is active. */
  lemma ActiveCons(e: Enterprise, s: seq<Enterprise>)
    ensures ActiveCount([e] + s) == (if IsActive(e) then 1 else 0) + ActiveCount(s)
  {
    assert ([e] + s)[1..] == s;
  }

  /** The badge colour of an industry: the colour of the first fixed entry
      with that label, or 'neutral' when there is none. */
  function ColorOf(stats: seq<IndustryStat>, industry: string): (c: string)
    ensures (forall i :: 0 <= i < |stats| ==> stats[i].text != industry) ==> c == "neutral"
    ensures forall i :: (0 <= i < |stats| && stats[i].text == industry &&
                         (forall j :: 0 <= j < i ==> stats[j].text != industry)) ==> c == stats[i].color
    decreases |stats|
  {
    if stats == [] then "neutral"
    else if stats[0].text == industry then stats[0].color
    else
      var c := ColorOf(stats[1..], industry);
      assert forall i :: 1 <= i < |stats| ==> stats[i] == stats[1..][i - 1];
      c
  }

  /** `visibleIndustries`: the fixed table for the administrator; for
      anyone else one badge per visible company, counting 1, in the colour
      the table gives its industry. */
  function VisibleIndustries(visible: seq<Enterprise>, role: Role): (r: seq<IndustryStat>)
    ensures role.id == "admin" ==> r == IndustryStats
    ensures role.id != "admin" ==> |r| == |visible|
    ensures role.id != "admin" ==> forall i :: 0 <= i < |visible| ==>
      r[i] == IndustryStat(visible[i].industry, 1, ColorOf(IndustryStats, visible[i].industry))
  {
    if role.id == "admin" then IndustryStats
    else Seqs.Map(visible, (e: Enterprise) => IndustryStat(e.industry, 1, ColorOf(IndustryStats, e.industry)))
  }

  /** The creation form. */
  datatype Form = Form(name: string, industry: string, location: string, email: string, phone: string, plan: string)

  /** `emptyCompanyForm`. */
  const EmptyForm := Form("", "", "", "", "", "Starter")

  /** The company `handleCreateCompany` builds: id and company id both the
      list length plus one, no employees yet, on trial, with the form's
      fields and the creation date. */
  function NewCompany(enterprises: seq<Enterprise>, form: Form, created: string): (e: Enterprise)
    ensures e.id == |enterprises| + 1 && e.companyId == e.id
    ensures e.employees == 0 && e.status == "trial" && e.created == created
    ensures e.name == form.name && e.industry == form.industry && e.location == form.location
    ensures e.email == form.email && e.phone == form.phone && e.plan == form.plan
  {
    Enterprise(|enterprises| + 1, |enterprises| + 1, form.name, form.industry, 0, form.location, form.email,
               form.phone, "trial", form.plan, created)
  }

  function EnterpriseId(e: Enterprise): int
  {
    e.id
  }

  /** Every company's id is its company id, and the ids are dense. */
  ghost predicate WellKeyed(enterprises: seq<Enterprise>)
  {
    Seqs.DenseIds(enterprises, EnterpriseId)
    && forall i :: 0 <= i < |enterprises| ==> enterprises[i].companyId == enterprises[i].id
  }

  /** The page's state. The creation date comes in as a parameter. */
  class Directory {
    var enterprises: seq<Enterprise>
    var form: Form
    var successMsg: string

    ghost predicate Valid()
      reads this
    {
      WellKeyed(enterprises)
    }

    constructor()
      ensures enterprises == DefaultEnterprises() && form == EmptyForm && successMsg == ""
      ensures Valid()
    {
      DefaultWellKeyed();
      enterprises := DefaultEnterprises();
      form := EmptyForm;
      successMsg := "";
    }

    /** `handleCreateCompany`: the new company goes to the front of the
        list, the form is reset and a message names the company. */
    method CreateCompany(created: string)
      requires Valid()
      modifies this
      ensures Valid()
      ensures enterprises == [NewCompany(old(enterprises), old(form), created)] + old(enterprises)
      ensures form == EmptyForm
      ensures successMsg == "Company \"" + old(form).name + "\" created successfully!"
    {
      var newCompany := NewCompany(enterprises, form, created);
      Seqs.PrependFresh(enterprises, newCompany, EnterpriseId);
      enterprises := [newCompany] + enterprises;
      form := EmptyForm;
      successMsg := "Company \"" + newCompany.name + "\" created successfully!";
    }
  }

  /** The starting list is well keyed. */
  lemma DefaultWellKeyed()
    ensures WellKeyed(DefaultEnterprises())
  {
  }

  /** In a well-keyed list a company id names one company only, so the role
      of a listed company sees that company and nothing else. */
  lemma {:induction false} TenantSeesOwnCompany(enterprises: seq<Enterprise>, role: Role, k: int)
    requires WellKeyed(enterprises) && role.id != "admin"
    requires 0 <= k < |enterprises| && enterprises[k].companyId == role.companyId
    ensures Visible(enterprises, role) == [enterprises[k]]
  {
    var p := BelongsTo(role.companyId);
    var before, at, after := enterprises[..k], [enterprises[k]], enterprises[k + 1..];
    assert enterprises == before + (at + after);
    assert Seqs.Filter(before, p) == [] by {
      forall i | 0 <= i < |before|
        ensures !p(before[i])
      {
        assert before[i] == enterprises[i] && EnterpriseId(enterprises[i]) != EnterpriseId(enterprises[k]);
      }
      Seqs.FilterDropsAll(before, p);
    }
    assert Seqs.Filter(after, p) == [] by {
      forall i | 0 <= i < |after|
        ensures !p(after[i])
      {
        assert after[i] == enterprises[k + 1 + i];
        assert EnterpriseId(enterprises[k]) != EnterpriseId(enterprises[k + 1 + i]);
      }
      Seqs.FilterDropsAll(after, p);
    }
    Seqs.FilterAppend(at, after, p);
    Seqs.FilterAppend(before, at + after, p);
  }

  /** A new company is seen by the administrator and by no role of an
      existing company: other tenants' views do not change. */
  lemma CreateInvisibleToTenants(enterprises: seq<Enterprise>, form: Form, created: string, role: Role)
    requires role.id != "admin" && role.companyId != |enterprises| + 1
    ensures Visible([NewCompany(enterprises, form, created)] + enterprises, role) == Visible(enterprises, role)
  {
    Seqs.FilterAppend([NewCompany(enterprises, form, created)], enterprises, BelongsTo(role.companyId));
  }

  /** A new company has no employees, so the administrator's total does
      not move. */
  lemma CreateKeepsTotal(enterprises: seq<Enterprise>, form: Form, created: string)
    ensures TotalEmployees([NewCompany(enterprises, form, created)] + enterprises) == TotalEmployees(enterprises)
  {
    var e := NewCompany(enterprises, form, created);
    TotalAppend([e], enterprises);
    assert [e][..0] == [];
  }

  /** An empty search keeps every visible company. */
  lemma {:induction false} EmptySearchKeepsAll(visible: seq<Enterprise>)
    ensures Searched(visible, "") == visible
  {
    forall i | 0 <= i < |visible|
      ensures MatchesSearch("")(visible[i])
    {
      assert IsPrefix(Lower(""), Lower(visible[i].name));
    }
    Seqs.FilterKeepsAll(visible, MatchesSearch(""));
  }

  /** The HR manager sees FinServe Global only, with its Finance badge in
      violet. */
  lemma HrView()
    ensures Visible(DefaultEnterprises(), Hr) == [DefaultEnterprises()[1]]
    ensures VisibleIndustries(Visible(DefaultEnterprises(), Hr), Hr) == [IndustryStat("Finance", 1, "violet")]
  {
    DefaultWellKeyed();
    TenantSeesOwnCompany(DefaultEnterprises(), Hr, 1);
    assert ColorOf(IndustryStats, "Finance") == "violet" by {
      assert IndustryStats[1].text == "Finance" && IndustryStats[0].text != "Finance";
    }
  }
}
