/**
 * The business categories documents are filed under, each with its folder
 * and the companies that belong to it, and the two lookups over the table.
 */
module Categories {
  import opened Text

  datatype CategoryInfo = CategoryInfo(name: string, folder: string, companies: seq<string>)

  /** `CATEGORIES`, in the order of its keys; each key equals its entry's name. */
  const Table: seq<CategoryInfo> := [
    CategoryInfo("Telekommunikation", "11_Telekommunikation",
      ["Vodafone", "Telekom", "O2", "Telefónica", "1&1"]),
    CategoryInfo("Versicherung", "04_Versicherungen",
      ["Allianz", "AXA", "Generali", "HUK-Coburg", "ERGO", "Gothaer",
       "R+V Versicherung", "VHV", "Debeka", "Signal Iduna",
       "Württembergische", "LVM", "Provinzial"]),
    CategoryInfo("Gesundheit", "02_Gesundheit",
      ["Techniker Krankenkasse", "TK", "AOK", "Barmer", "DAK", "IKK", "KKH"]),
    CategoryInfo("Finanzen", "01_Finanzen",
      ["Sparkasse", "Volksbank", "Postbank", "Commerzbank",
       "Deutsche Bank", "PayPal", "N26", "ING", "DKB"]),
    CategoryInfo("Logistik", "12_Logistik",
      ["DHL", "Deutsche Post", "Hermes", "UPS", "FedEx", "DPD", "GLS"]),
    CategoryInfo("Online", "13_Online", ["Amazon", "eBay", "Otto", "Zalando"]),
    CategoryInfo("Reisen", "06_Reisen", ["Lufthansa", "Deutsche Bahn", "Booking.com", "Airbnb"]),
    CategoryInfo("Auto", "09_Auto", ["ADAC", "TÜV", "DEKRA"])
  ]

  /** A company name and a table entry are related when either contains the other. */
  predicate Related(name: string, company: string) {
    Contains(name, company) || Contains(company, name)
  }

  predicate AnyRelated(name: string, companies: seq<string>) {
    exists c :: c in companies && Related(name, c)
  }

  /** The index of the first category from `i` on with a company related to `name`. */
  function FirstRelatedFrom(name: string, i: nat): (r: Option<nat>)
    requires i <= |Table|
    ensures r.Some? ==> i <= r.value < |Table| && AnyRelated(name, Table[r.value].companies)
    ensures r.Some? ==> forall k :: i <= k < r.value ==> !AnyRelated(name, Table[k].companies)
    ensures r.None? ==> forall k :: i <= k < |Table| ==> !AnyRelated(name, Table[k].companies)
    decreases |Table| - i
  {
    if i == |Table| then None
    else if AnyRelated(name, Table[i].companies) then Some(i)
    else FirstRelatedFrom(name, i + 1)
  }

  /** `getCategoryForCompany(companyName)`: the first category, in table order, with a related company. */
  function CategoryForCompany(name: string): (r: Option<CategoryInfo>)
    ensures r.None? <==> forall k :: 0 <= k < |Table| ==> !AnyRelated(name, Table[k].companies)
    ensures r.Some? ==> exists k :: 0 <= k < |Table| && r.value == Table[k] && AnyRelated(name, Table[k].companies) &&
                                    (forall j :: 0 <= j < k ==> !AnyRelated(name, Table[j].companies))
  {
    match FirstRelatedFrom(name, 0)
    case None => None
    case Some(k) => Some(Table[k])
  }

  /** Every company contains the empty string, so the empty name falls in the first category. */
  lemma EmptyNameIsTelecommunication()
    ensures CategoryForCompany("") == Some(Table[0])
    ensures Table[0].name == "Telekommunikation"
  {
    ContainsEmpty("Vodafone");
    assert Related("", "Vodafone");
  }

  /** A name that contains a listed company, or is contained in one, always finds a category. */
  lemma {:induction false} ListedCompanyFindsCategory(name: string, k: nat, company: string)
    requires k < |Table| && company in Table[k].companies && Related(name, company)
    ensures CategoryForCompany(name).Some?
  {
    assert AnyRelated(name, Table[k].companies);
  }

  /** `getAllCategories()`: the table's entries in table order. */
  function AllCategories(): (r: seq<CategoryInfo>)
    ensures r == Table && |r| == 8
    ensures forall c :: c in r <==> c in Table
    ensures r[0].name == "Telekommunikation" && r[7].name == "Auto"
  {
    Table
  }

  /** `getCategoryByFolder(folder)`: the entry whose folder is `folder`. */
  function CategoryByFolder(folder: string): (r: Option<CategoryInfo>)
    ensures r.Some? ==> r.value in Table && r.value.folder == folder
    ensures r.None? <==> forall c :: c in Table ==> c.folder != folder
  {
    FolderFrom(folder, 0)
  }

  function FolderFrom(folder: string, i: nat): (r: Option<CategoryInfo>)
    requires i <= |Table|
    ensures r.Some? ==> r.value in Table[i..] && r.value.folder == folder
    ensures r.None? <==> forall c :: c in Table[i..] ==> c.folder != folder
    decreases |Table| - i
  {
    if i == |Table| then None
    else if Table[i].folder == folder then Some(Table[i])
    else
      assert Table[i..] == [Table[i]] + Table[i + 1..];
      FolderFrom(folder, i + 1)
  }

  /** No two entries share a folder, nor a name. */
  lemma TableKeysDistinct()
    ensures forall i, j :: 0 <= i < j < |Table| ==> Table[i].folder != Table[j].folder
    ensures forall i, j :: 0 <= i < j < |Table| ==> Table[i].name != Table[j].name
  {
  }

  /** Since folders are distinct, the lookup by folder finds the one entry that has it. */
  lemma ByFolderIsUnique(c: CategoryInfo)
    requires c in Table
    ensures CategoryByFolder(c.folder) == Some(c)
  {
    TableKeysDistinct();
  }
}
