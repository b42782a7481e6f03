/** The product store: the full product list, the filtered list shown to
    customers, and the three filter criteria (location, company, search
    text) that each `filterBy*` action records and re-applies. */
module Catalog {
  import opened Wrappers
  import opened Domain
  import Text
  import Seqs
  import StringOrder

  datatype State = State(
    products: seq<Product>,
    filtered: seq<Product>,
    location: Option<Location>,
    company: Option<string>,
    query: string,
    error: Option<string>)

  /** A company criterion constrains only when it is a non-empty string
      (JavaScript truthiness of `currentCompanyFilter`). */
  predicate CompanyActive(company: Option<string>) {
    company.Some? && company.value != ""
  }

  predicate MatchesLocation(p: Product, location: Option<Location>) {
    location.None? || location.value in p.locations
  }

  predicate MatchesCompany(p: Product, company: Option<string>) {
    !CompanyActive(company) || p.company == company.value
  }

  /** Case-insensitive substring match on the name or the description; the
      empty query matches everything. */
  predicate MatchesSearch(p: Product, query: string) {
    || query == ""
    || Text.Contains(Text.Lower(p.name), Text.Lower(query))
    || Text.Contains(Text.Lower(p.description), Text.Lower(query))
  }

  predicate Matches(p: Product, location: Option<Location>, company: Option<string>, query: string) {
    MatchesLocation(p, location) && MatchesCompany(p, company) && MatchesSearch(p, query)
  }

  function LocationTest(location: Option<Location>): Product -> bool {
    (p: Product) => MatchesLocation(p, location)
  }

  function CompanyTest(company: Option<string>): Product -> bool {
    (p: Product) => MatchesCompany(p, company)
  }

  function SearchTest(query: string): Product -> bool {
    (p: Product) => MatchesSearch(p, query)
  }

  function PlaceAndCompanyTest(location: Option<Location>, company: Option<string>): Product -> bool {
    (p: Product) => MatchesLocation(p, location) && MatchesCompany(p, company)
  }

  function MatchTest(location: Option<Location>, company: Option<string>, query: string): Product -> bool {
    (p: Product) => Matches(p, location, company, query)
  }

  /** The products every active criterion admits, in list order. */
  function Visible(products: seq<Product>, location: Option<Location>, company: Option<string>, query: string): (r: seq<Product>)
    ensures forall i :: 0 <= i < |r| ==> r[i] in products && Matches(r[i], location, company, query)
    ensures forall i :: 0 <= i < |products| && Matches(products[i], location, company, query) ==> products[i] in r
  {
    Seqs.Filter(products, MatchTest(location, company, query))
  }

  /** The filtered list is exactly what the recorded criteria admit. */
  predicate Consistent(s: State) {
    s.filtered == Visible(s.products, s.location, s.company, s.query)
  }

  /** The three filters as each `filterBy*` action applies them, one after
      another, each only when its criterion is set. */
  function ApplyFilters(products: seq<Product>, location: Option<Location>, company: Option<string>, query: string): (r: seq<Product>)
    ensures r == Visible(products, location, company, query)
  {
    var f1 := if location.Some? then Seqs.Filter(products, LocationTest(location)) else products;
    var f2 := if CompanyActive(company) then Seqs.Filter(f1, CompanyTest(company)) else f1;
    var f3 := if query != "" then Seqs.Filter(f2, SearchTest(query)) else f2;
    assert f1 == Seqs.Filter(products, LocationTest(location));
    assert f2 == Seqs.Filter(f1, CompanyTest(company));
    assert f3 == Seqs.Filter(f2, SearchTest(query));
    Seqs.FilterFilter(products, LocationTest(location), CompanyTest(company), PlaceAndCompanyTest(location, company));
    Seqs.FilterFilter(products, PlaceAndCompanyTest(location, company), SearchTest(query), MatchTest(location, company, query));
    f3
  }

  /** `filterByLocation`: records the location and refilters by all criteria. */
  function FilterByLocation(s: State, location: Location): (r: State)
    ensures r.location == Some(location) && r.company == s.company && r.query == s.query
    ensures r.products == s.products && r.error == s.error
    ensures Consistent(r)
  {
    s.(filtered := ApplyFilters(s.products, Some(location), s.company, s.query), location := Some(location))
  }

  /** `filterByCompany`: records the company (None or "" clears it) and
      refilters by all criteria. */
  function FilterByCompany(s: State, company: Option<string>): (r: State)
    ensures r.company == company && r.location == s.location && r.query == s.query
    ensures r.products == s.products && r.error == s.error
    ensures Consistent(r)
  {
    s.(filtered := ApplyFilters(s.products, s.location, company, s.query), company := company)
  }

  /** `filterBySearch`: records the query ("" clears it) and refilters by all
      criteria. */
  function FilterBySearch(s: State, query: string): (r: State)
    ensures r.query == query && r.location == s.location && r.company == s.company
    ensures r.products == s.products && r.error == s.error
    ensures Consistent(r)
  {
    s.(filtered := ApplyFilters(s.products, s.location, s.company, query), query := query)
  }

  /** Some filter criterion is recorded. */
  predicate AnyCriterion(s: State) {
    s.location.Some? || CompanyActive(s.company) || s.query != ""
  }

  /** `fetchProducts`: on success both lists become the fetched list,
      whatever criteria are recorded; on failure only the error is set. */
  function FetchProducts(s: State, fetched: Result<seq<Product>, string>): (r: State)
    ensures fetched.Success? ==> r.products == fetched.value && r.filtered == fetched.value && r.error.None?
    ensures fetched.Failure? ==> r == s.(error := Some(fetched.error))
    ensures r.location == s.location && r.company == s.company && r.query == s.query
  {
    match fetched
    case Success(ps) => s.(products := ps, filtered := ps, error := None)
    case Failure(e) => s.(error := Some(e))
  }

  /** After a fetch the filtered list agrees with the criteria only if they
      admit every fetched product. */
  lemma FetchIgnoresCriteria(s: State, ps: seq<Product>)
    ensures Consistent(FetchProducts(s, Success(ps))) <==> Visible(ps, s.location, s.company, s.query) == ps
  {
  }

  /** `addProduct`: the stored product (with its new id) is put first in
      both lists, then dropped from the filtered list again, together with
      anything sharing its id, unless every criterion admits it. */
  function AddProduct(s: State, stored: Result<Product, string>): (r: State)
    ensures stored.Failure? ==> r == s.(error := Some(stored.error))
    ensures stored.Success? ==> r.products == [stored.value] + s.products && r.error.None?
    ensures stored.Success? && Matches(stored.value, s.location, s.company, s.query) ==>
              r.filtered == [stored.value] + s.filtered
    ensures stored.Success? && !Matches(stored.value, s.location, s.company, s.query) ==>
              r.filtered == Seqs.Filter(s.filtered, (p: Product) => p.id != stored.value.id)
    ensures r.location == s.location && r.company == s.company && r.query == s.query
  {
    match stored
    case Failure(e) => s.(error := Some(e))
    case Success(np) =>
      var added := s.(products := [np] + s.products, filtered := [np] + s.filtered, error := None);
      if Matches(np, s.location, s.company, s.query) then added
      else added.(filtered := Seqs.Filter(added.filtered, (p: Product) => p.id != np.id))
  }

  /** A product whose id is new keeps the filtered list consistent. */
  lemma AddProductKeepsConsistent(s: State, np: Product)
    requires Consistent(s)
    requires forall i :: 0 <= i < |s.products| ==> s.products[i].id != np.id
    ensures Consistent(AddProduct(s, Success(np)))
  {
    var test := MatchTest(s.location, s.company, s.query);
    Seqs.FilterAppend([np], s.products, test);
    if !Matches(np, s.location, s.company, s.query) {
      var keep := (p: Product) => p.id != np.id;
      Seqs.FilterAppend([np], s.filtered, keep);
      assert forall i :: 0 <= i < |s.filtered| ==> keep(s.filtered[i]) by {
        forall i | 0 <= i < |s.filtered| ensures keep(s.filtered[i]) {
          assert s.filtered[i] in s.products;
        }
      }
    }
  }

  /** `products.map(p => p.id === updated.id ? updated : p)`. */
  function ReplaceById(products: seq<Product>, updated: Product): (r: seq<Product>)
    ensures |r| == |products|
    ensures forall i :: 0 <= i < |products| && products[i].id == updated.id ==> r[i] == updated
    ensures forall i :: 0 <= i < |products| && products[i].id != updated.id ==> r[i] == products[i]
  {
    seq(|products|, i requires 0 <= i < |products| => if products[i].id == updated.id then updated else products[i])
  }

  /** `updateProduct`: once storage accepts it, the product with that id is
      replaced and the filters are re-run for each recorded criterion; with
      none recorded the filtered list is left as it was (possibly stale). */
  function UpdateProduct(s: State, updated: Product, storageError: Option<string>): (r: State)
    ensures storageError.Some? ==> r == s.(error := storageError)
    ensures storageError.None? ==> r.products == ReplaceById(s.products, updated) && r.error.None?
    ensures storageError.None? && AnyCriterion(s) ==> Consistent(r)
    ensures storageError.None? && !AnyCriterion(s) ==> r.filtered == s.filtered
    ensures r.location == s.location && r.company == s.company && r.query == s.query
  {
    if storageError.Some? then s.(error := storageError)
    else
      var s1 := s.(products := ReplaceById(s.products, updated), error := None);
      var s2 := if s1.location.Some? then FilterByLocation(s1, s1.location.value) else s1;
      var s3 := if CompanyActive(s2.company) then FilterByCompany(s2, s2.company) else s2;
      if s3.query != "" then FilterBySearch(s3, s3.query) else s3
  }

  /** `deleteProduct`: once storage accepts it, every product with that id
      leaves both lists; on error nothing but the error changes. */
  function DeleteProduct(s: State, id: string, storageError: Option<string>): (r: State)
    ensures storageError.Some? ==> r == s.(error := storageError)
    ensures storageError.None? ==>
      && (forall i :: 0 <= i < |r.products| ==> r.products[i].id != id)
      && (forall i :: 0 <= i < |r.filtered| ==> r.filtered[i].id != id)
      && r.products == Seqs.Filter(s.products, (p: Product) => p.id != id)
      && r.filtered == Seqs.Filter(s.filtered, (p: Product) => p.id != id)
    ensures r.location == s.location && r.company == s.company && r.query == s.query
  {
    if storageError.Some? then s.(error := storageError)
    else
      var keep := (p: Product) => p.id != id;
      s.(products := Seqs.Filter(s.products, keep), filtered := Seqs.Filter(s.filtered, keep), error := None)
  }

  /** Deleting keeps the filtered list consistent. */
  lemma DeleteProductKeepsConsistent(s: State, id: string)
    requires Consistent(s)
    ensures Consistent(DeleteProduct(s, id, None))
  {
    var keep := (p: Product) => p.id != id;
    var test := MatchTest(s.location, s.company, s.query);
    var both := (p: Product) => keep(p) && test(p);
    Seqs.FilterFilter(s.products, test, keep, both);
    Seqs.FilterFilter(s.products, keep, test, both);
  }

  function Companies(products: seq<Product>): (r: seq<string>)
    ensures |r| == |products|
    ensures forall i :: 0 <= i < |products| ==> r[i] == products[i].company
  {
    seq(|products|, i requires 0 <= i < |products| => products[i].company)
  }

  /** A company name that is not blank. */
  predicate Named(c: string) {
    Text.Trim(c) != ""
  }

  /** The distinct non-blank company names, in order of first appearance. */
  function NamedCompanies(products: seq<Product>): (r: seq<string>)
    ensures Seqs.Distinct(r)
    ensures forall c :: c in r <==> c in Companies(products) && Named(c)
  {
    var distinct := Seqs.Dedup(Companies(products));
    Seqs.FilterKeepsDistinct(distinct, Named);
    Seqs.Filter(distinct, Named)
  }

  /** `getUniqueCompanies`: every company name that is not blank, once each,
      in ascending order. */
  function UniqueCompanies(products: seq<Product>): (r: seq<string>)
    ensures StringOrder.Sorted(r)
    ensures Seqs.Distinct(r)
    ensures forall c :: c in r <==> c in Companies(products) && Named(c)
  {
    var named := NamedCompanies(products);
    var r := StringOrder.Sort(named);
    Seqs.PermutationKeepsDistinct(named, r);
    assert forall c :: c in r <==> c in named by {
      forall c ensures c in r <==> c in named {
        assert c in r <==> c in multiset(r);
        assert c in named <==> c in multiset(named);
      }
    }
    r
  }
}
