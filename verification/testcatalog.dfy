/** The lab's test catalogue (app/lab/catalog/page.tsx): creating a test from
    the dialog form, switching a test on and off, and the category filter. */
module TestCatalog {
  import Seqs
  import Decimal
  import opened Filters

  const IdPrefix := "T"

  /** One catalogue entry; the price is whatever `parseFloat` made of the
      form text. */
  datatype CatalogTest = CatalogTest(
    id: string,
    name: string,
    category: string,
    description: string,
    sampleType: string,
    turnaroundTime: string,
    price: real,
    preparation: string,
    normalRange: string,
    active: bool)

  /** The "new test" form; every field is text. */
  datatype TestForm = TestForm(
    name: string,
    category: string,
    description: string,
    sampleType: string,
    turnaroundTime: string,
    price: string,
    preparation: string,
    normalRange: string)

  const EmptyForm := TestForm("", "", "", "", "", "", "", "")

  /** The page state the handlers touch. */
  datatype Page = Page(tests: seq<CatalogTest>, form: TestForm, dialogOpen: bool)

  /** The identifier the page gives the n-th test. */
  function TestId(n: nat): string
  {
    IdPrefix + Decimal.Pad3(n)
  }

  /** `handleCreateTest`: no validation; the new test, active, numbered one
      past the current length, goes to the end; the dialog closes and the
      form is emptied. `parsePrice` stands for `Number.parseFloat`. */
  function CreateTest(p: Page, parsePrice: string -> real): (q: Page)
    ensures |q.tests| == |p.tests| + 1 && q.tests[..|p.tests|] == p.tests
    ensures var t := q.tests[|p.tests|];
      && t.id == TestId(|p.tests| + 1) && t.active
      && t.name == p.form.name && t.category == p.form.category && t.description == p.form.description
      && t.sampleType == p.form.sampleType && t.turnaroundTime == p.form.turnaroundTime
      && t.price == parsePrice(p.form.price)
      && t.preparation == p.form.preparation && t.normalRange == p.form.normalRange
    ensures q.form == EmptyForm && !q.dialogOpen
  {
    var f := p.form;
    var t := CatalogTest(TestId(|p.tests| + 1), f.name, f.category, f.description, f.sampleType,
                         f.turnaroundTime, parsePrice(f.price), f.preparation, f.normalRange, true);
    Page(p.tests + [t], EmptyForm, false)
  }

  /** `toggleTestStatus`: flips `active` on the tests with the given id. */
  function ToggleTestStatus(tests: seq<CatalogTest>, id: string): (r: seq<CatalogTest>)
    ensures |r| == |tests|
    ensures forall i :: 0 <= i < |r| ==> r[i].(active := tests[i].active) == tests[i]
    ensures forall i :: 0 <= i < |r| && tests[i].id == id ==> r[i].active == !tests[i].active
    ensures forall i :: 0 <= i < |r| && tests[i].id != id ==> r[i] == tests[i]
  {
    Seqs.UpdateWhere(tests, (t: CatalogTest) => t.id == id, (t: CatalogTest) => t.(active := !t.active))
  }

  /** The search box looks at the name, the category and the description. */
  predicate Searched(lower: string -> string, term: string, t: CatalogTest)
  {
    Matches(lower, term, [t.name, t.category, t.description])
  }

  /** `filteredTests`: the search box and the category drop-down. */
  function FilteredTests(tests: seq<CatalogTest>, lower: string -> string, term: string, category: string): (r: seq<CatalogTest>)
    ensures Seqs.IsSubsequence(r, tests)
    ensures forall t :: t in r <==> t in tests && Searched(lower, term, t) && Selects(category, t.category)
    ensures forall t :: multiset(r)[t] == if Searched(lower, term, t) && Selects(category, t.category) then multiset(tests)[t] else 0
  {
    Seqs.Filter(tests, (t: CatalogTest) => Searched(lower, term, t) && Selects(category, t.category))
  }

  /** Toggling the same test twice restores the catalogue. */
  lemma ToggleTwice(tests: seq<CatalogTest>, id: string)
    ensures ToggleTestStatus(ToggleTestStatus(tests, id), id) == tests
  {
  }

  /** The numbering the mock catalogue starts with ("T001", "T002", ...):
      position i holds test number i + 1. */
  predicate Numbered(tests: seq<CatalogTest>)
  {
    forall i :: 0 <= i < |tests| ==> tests[i].id == TestId(i + 1)
  }

  /** Creating a test keeps the numbering. */
  lemma CreateKeepsNumbering(p: Page, parsePrice: string -> real)
    requires Numbered(p.tests)
    ensures Numbered(CreateTest(p, parsePrice).tests)
  {
    var q := CreateTest(p, parsePrice).tests;
    assert q == p.tests + [q[|p.tests|]] by {
      assert q[..|p.tests|] == p.tests;
    }
    AppendKeepsNumbering(p.tests, q[|p.tests|]);
  }

  lemma AppendKeepsNumbering(tests: seq<CatalogTest>, t: CatalogTest)
    requires Numbered(tests) && t.id == TestId(|tests| + 1)
    ensures Numbered(tests + [t])
  {
    var u := tests + [t];
    forall i | 0 <= i < |u|
      ensures u[i].id == TestId(i + 1)
    {
      if i < |tests| {
        assert u[i] == tests[i];
      } else {
        assert u[i] == t;
      }
    }
  }

  lemma IdBelowNext(id: string, a: nat, b: nat)
    requires id == TestId(a) && a < b
    ensures id != TestId(b)
  {
    Decimal.PrefixedPad3Injective(IdPrefix, a, b);
  }

  /** Toggling a test keeps the numbering. */
  lemma ToggleKeepsNumbering(tests: seq<CatalogTest>, id: string)
    requires Numbered(tests)
    ensures Numbered(ToggleTestStatus(tests, id))
  {
  }

  /** In a numbered catalogue the id the next create hands out is new: no
      existing test carries it. */
  lemma NextIdFresh(tests: seq<CatalogTest>)
    requires Numbered(tests)
    ensures forall i :: 0 <= i < |tests| ==> tests[i].id != TestId(|tests| + 1)
  {
    forall i | 0 <= i < |tests|
      ensures tests[i].id != TestId(|tests| + 1)
    {
      IdBelowNext(tests[i].id, i + 1, |tests| + 1);
    }
  }
}
