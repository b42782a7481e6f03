/** The customer's company chips: "All" plus one chip per company found in
    the product list. */
module CompanyFilter {
  import opened Wrappers
  import opened Domain
  import Seqs
  import Catalog

  /** The companies of the products, each once, in order of first
      appearance (`Array.from(new Set(...))`). */
  function ChipCompanies(products: seq<Product>): (r: seq<string>)
    ensures Seqs.Distinct(r)
    ensures forall i :: 0 <= i < |products| ==> products[i].company in r
    ensures forall i :: 0 <= i < |r| ==> exists k :: 0 <= k < |products| && products[k].company == r[i]
    ensures forall i, j :: 0 <= i < j < |r| ==>
              Seqs.FirstIndex(Catalog.Companies(products), r[i]) < Seqs.FirstIndex(Catalog.Companies(products), r[j])
  {
    Seqs.Dedup(Catalog.Companies(products))
  }

  /** A chip on the bar. */
  datatype Chip = All | CompanyChip(name: string)

  /** The company filter that pressing `chip` reports: "All" clears it, the
      selected company's chip deselects it, any other chip selects its
      company. */
  function Press(selected: Option<string>, chip: Chip): (r: Option<string>)
    ensures chip.All? ==> r.None?
    ensures chip.CompanyChip? ==> (r.None? <==> selected == Some(chip.name))
    ensures r.Some? ==> chip.CompanyChip? && r.value == chip.name
  {
    match chip
    case All => None
    case CompanyChip(name) => if selected == Some(name) then None else Some(name)
  }

  /** Pressing the same company chip twice ends with nothing selected,
      unless that company was the selection to begin with. */
  lemma PressTwice(selected: Option<string>, name: string)
    ensures Press(Press(selected, CompanyChip(name)), CompanyChip(name)) ==
              (if selected == Some(name) then Some(name) else None)
  {
  }

  /** The bar is drawn only when there is at least one company. */
  predicate Rendered(products: seq<Product>) {
    |ChipCompanies(products)| > 0
  }

  /** ... which is exactly when there is at least one product. */
  lemma RenderedIffProducts(products: seq<Product>)
    ensures Rendered(products) <==> |products| > 0
  {
    if |products| > 0 {
      assert products[0].company in ChipCompanies(products);
    }
  }
}
