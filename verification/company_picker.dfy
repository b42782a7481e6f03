/** The admin's company picker: a searchable list of the known companies
    with an option to create a new one, which reports the chosen name (and,
    when asked, the logo of an existing product of that company). */
module CompanyPicker {
  import opened Wrappers
  import opened Domain
  import Text
  import Seqs

  /** Whether the modal is open and the text typed into its search box. */
  datatype Picker = Picker(open: bool, search: string)

  /** What a press reports to the form: the company name given to
      `onValueChange` and the logo given to `onCompanyImageChange`, each
      absent when that callback is not called. */
  datatype Emitted = Emitted(value: Option<string>, image: Option<string>)

  /** Case-insensitive "contains the search text". */
  predicate MatchesSearch(company: string, search: string) {
    Text.Contains(Text.Lower(company), Text.Lower(search))
  }

  /** Case-insensitive equality of two names. */
  predicate SameName(a: string, b: string) {
    Text.Lower(a) == Text.Lower(b)
  }

  /** `filteredCompanies`: the companies whose name contains the search
      text, ignoring case, in list order. */
  function FilteredCompanies(companies: seq<string>, search: string): (r: seq<string>)
    ensures forall i :: 0 <= i < |r| ==> r[i] in companies && MatchesSearch(r[i], search)
    ensures forall i :: 0 <= i < |companies| && MatchesSearch(companies[i], search) ==> companies[i] in r
    ensures search == [] ==> r == companies
  {
    assert search == [] ==> forall i :: 0 <= i < |companies| ==> MatchesSearch(companies[i], search) by {
      if search == [] {
        forall i | 0 <= i < |companies| ensures MatchesSearch(companies[i], search) {
          assert Text.OccursAt(Text.Lower(companies[i]), Text.Lower(search), 0);
        }
      }
    }
    Seqs.Filter(companies, (c: string) => MatchesSearch(c, search))
  }

  /** Filtering works company by company and keeps list order: filtering a
      concatenation filters each part, and one company stays exactly when
      its name contains the search text. */
  lemma FilteredCompaniesInOrder(a: seq<string>, b: seq<string>, c: string, search: string)
    ensures FilteredCompanies(a + b, search) == FilteredCompanies(a, search) + FilteredCompanies(b, search)
    ensures FilteredCompanies([c], search) == if MatchesSearch(c, search) then [c] else []
  {
    Seqs.FilterAppend(a, b, (x: string) => MatchesSearch(x, search));
  }

  /** `showCreateOption`: something has been typed and it is not the name
      of a listed company, ignoring case. The typed text itself is then
      never a listed company. */
  function ShowCreate(companies: seq<string>, search: string): (r: bool)
    ensures r ==> |search| > 0 && search !in companies
    ensures r <==> |search| > 0 && forall i :: 0 <= i < |companies| ==> Text.Lower(companies[i]) != Text.Lower(search)
  {
    |search| > 0 && !(exists i :: 0 <= i < |companies| && SameName(companies[i], search))
  }

  /** When the create option is offered, none of the companies the search
      still lists is the typed name, and neither is the typed text itself a
      listed company; a listed name typed in any case hides the option. */
  lemma CreateOnlyForNewNames(companies: seq<string>, search: string)
    ensures ShowCreate(companies, search) ==>
      && search !in companies
      && (forall i :: 0 <= i < |FilteredCompanies(companies, search)| ==>
            !SameName(FilteredCompanies(companies, search)[i], search))
    ensures (exists i :: 0 <= i < |companies| && SameName(companies[i], search)) ==> !ShowCreate(companies, search)
  {
  }

  /** The logo of the first product of `company` whose `companyImageUrl` is
      a non-empty string. */
  function FirstCompanyImage(products: seq<Product>, company: string): (r: Option<string>)
    ensures r.Some? <==> exists i :: 0 <= i < |products| && HasLogo(products[i], company)
    ensures r.Some? ==> exists i :: 0 <= i < |products| && HasLogo(products[i], company)
                          && r.value == products[i].companyImageUrl.value
                          && forall j :: 0 <= j < i ==> !HasLogo(products[j], company)
  {
    if |products| == 0 then None
    else if HasLogo(products[0], company) then Some(products[0].companyImageUrl.value)
    else
      var r := FirstCompanyImage(products[1..], company);
      assert forall i :: 0 <= i < |products[1..]| ==> products[1..][i] == products[i + 1];
      assert (exists i :: 0 <= i < |products| && HasLogo(products[i], company)) ==>
             exists i :: 0 <= i < |products[1..]| && HasLogo(products[1..][i], company) by {
        if exists i :: 0 <= i < |products| && HasLogo(products[i], company) {
          var i :| 0 <= i < |products| && HasLogo(products[i], company);
          assert HasLogo(products[1..][i - 1], company);
        }
      }
      if r.Some? then
        var i :| 0 <= i < |products[1..]| && HasLogo(products[1..][i], company)
                 && r.value == products[1..][i].companyImageUrl.value
                 && forall j :: 0 <= j < i ==> !HasLogo(products[1..][j], company);
        assert HasLogo(products[i + 1], company) && r.value == products[i + 1].companyImageUrl.value;
        assert forall j :: 0 <= j < i + 1 ==> !HasLogo(products[j], company);
        r
      else
        r
  }

  predicate HasLogo(p: Product, company: string) {
    p.company == company && p.companyImageUrl.Some? && p.companyImageUrl.value != ""
  }

  /** `handleSelectCompany`: reports the company, and its first logo when
      the form asked for logos and one exists; then closes and clears. */
  function Select(picker: Picker, products: seq<Product>, company: string, wantsImage: bool): (r: (Picker, Emitted))
    ensures r.0 == Picker(false, [])
    ensures r.1.value == Some(company)
    ensures r.1.image.Some? ==> wantsImage && exists i :: (0 <= i < |products| && HasLogo(products[i], company)
                                  && r.1.image.value == products[i].companyImageUrl.value)
    ensures wantsImage && (exists i :: 0 <= i < |products| && HasLogo(products[i], company)) ==> r.1.image.Some?
    ensures r.1.image == if wantsImage then FirstCompanyImage(products, company) else None
  {
    var image := if wantsImage then FirstCompanyImage(products, company) else None;
    (Picker(false, []), Emitted(Some(company), image))
  }

  /** Selecting a company reports the logo of the first of its products
      that has one, and no logo when the form did not ask for logos. */
  lemma SelectReportsFirstLogo(picker: Picker, products: seq<Product>, company: string, wantsImage: bool, i: nat)
    requires i < |products| && HasLogo(products[i], company)
    requires forall j :: 0 <= j < i ==> !HasLogo(products[j], company)
    ensures Select(picker, products, company, wantsImage).1.image
            == if wantsImage then Some(products[i].companyImageUrl.value) else None
  {
    if wantsImage {
      var r := FirstCompanyImage(products, company);
      var k :| 0 <= k < |products| && HasLogo(products[k], company)
               && r.value == products[k].companyImageUrl.value
               && forall j :: 0 <= j < k ==> !HasLogo(products[j], company);
      assert k == i;
    }
  }

  /** `handleCreateCompany`: reports the trimmed search text, then closes
      and clears; blank text changes nothing and reports nothing. */
  function Create(picker: Picker): (r: (Picker, Emitted))
    ensures Text.AllSpace(picker.search) ==> r == (picker, Emitted(None, None))
    ensures !Text.AllSpace(picker.search) ==>
      && r.0 == Picker(false, [])
      && r.1.image.None?
      && r.1.value == Some(Text.Trim(picker.search))
      && r.1.value.value != []
      && !Text.IsSpace(r.1.value.value[0]) && !Text.IsSpace(r.1.value.value[|r.1.value.value| - 1])
  {
    Text.TrimEmptyIffAllSpace(picker.search);
    var name := Text.Trim(picker.search);
    if name != [] then (Picker(false, []), Emitted(Some(name), None))
    else (picker, Emitted(None, None))
  }
}
