/** The employer's company-profile form, client/src/pages/employer/CreateProfile.jsx.
    The profile is one record with scalar fields, two groups of sub-fields
    (headquarters, socialMedia) and three lists of strings (values,
    specialties, positions). Every edit builds a new record with a spread and
    a `map` or `filter` over one list. */
module CreateProfile {
  import opened Js
  import opened Lists
  import opened Session

  const ListNames: set<string> := {"values", "specialties", "positions"}

  /** The record the form starts from, before the stored profile is fetched. */
  const InitialProfile: Record := map[
    "name" := Str(""), "description" := Str(""), "industry" := Str(""),
    "website" := Str(""), "email" := Str(""), "phone" := Str(""),
    "headquarters" := Obj(map["country" := Str(""), "city" := Str("")]),
    "size" := Str(""), "foundedYear" := Str(""), "mission" := Str(""), "vision" := Str(""),
    "values" := Arr([Str("")]), "specialties" := Arr([Str("")]),
    "socialMedia" := Obj(map["linkedin" := Str(""), "twitter" := Str(""),
                             "facebook" := Str(""), "instagram" := Str("")]),
    "picture" := Null,
    "positions" := Arr([Str("")])
  ]

  /** The shape every handler relies on: the three lists are arrays and the
      two groups are objects. */
  predicate WellShaped(r: Record)
  {
    && (forall n :: n in ListNames ==> IsList(r, n))
    && IsGroup(r, "headquarters") && IsGroup(r, "socialMedia")
  }

  lemma InitialProfileShape()
    ensures WellShaped(InitialProfile)
    ensures forall n :: n in ListNames ==> InitialProfile[n] == Arr([Str("")])
    ensures forall f :: f in InitialProfile["headquarters"].fields ==> InitialProfile["headquarters"].fields[f] == Str("")
    ensures forall f :: f in InitialProfile["socialMedia"].fields ==> InitialProfile["socialMedia"].fields[f] == Str("")
  {
  }

  /** A scalar input: `{ ...companyData, [name]: value }`. */
  function SetField(r: Record, name: string, value: string): (r': Record)
    requires name !in ListNames && name != "headquarters" && name != "socialMedia"
    ensures OnlyKeyChanged(r, r', name) && r'[name] == Str(value)
    ensures WellShaped(r) ==> WellShaped(r')
  {
    r[name := Str(value)]
  }

  /** A headquarters or socialMedia input: the group is spread and one of its
      fields is written. */
  function SetSubField(r: Record, group: string, field: string, value: string): (r': Record)
    requires IsGroup(r, group)
    ensures OnlyKeyChanged(r, r', group) && r'[group].Obj?
    ensures OnlyKeyChanged(r[group].fields, r'[group].fields, field)
    ensures r'[group].fields[field] == Str(value)
    ensures WellShaped(r) ==> WellShaped(r')
  {
    r[group := Obj(r[group].fields[field := Str(value)])]
  }

  /** handleChange(index, arrayName, newValue): `map` keeps every item except
      the one at `index`. An index past the end leaves the list equal. */
  function HandleChange(r: Record, index: nat, arrayName: string, newValue: string): (r': Record)
    requires IsList(r, arrayName)
    ensures OnlyKeyChanged(r, r', arrayName) && r'[arrayName].Arr?
    ensures r'[arrayName].items == if index < |r[arrayName].items| then r[arrayName].items[index := Str(newValue)]
                                   else r[arrayName].items
    ensures WellShaped(r) ==> WellShaped(r')
  {
    var items := r[arrayName].items;
    MapIsReplace(items, index, Str(newValue));
    r[arrayName := Arr(MapAtIndex(items, index, Str(newValue)))]
  }

  /** handleAddItem(name, defaultValue): the list gains `defaultValue` at its end. */
  function HandleAddItem(r: Record, name: string, defaultValue: string): (r': Record)
    requires IsList(r, name)
    ensures OnlyKeyChanged(r, r', name) && r'[name].Arr?
    ensures |r'[name].items| == |r[name].items| + 1
    ensures r'[name].items[..|r[name].items|] == r[name].items
    ensures r'[name].items[|r[name].items|] == Str(defaultValue)
    ensures WellShaped(r) ==> WellShaped(r')
  {
    r[name := Arr(r[name].items + [Str(defaultValue)])]
  }

  /** handleRemoveItem(name, index): `filter` drops the item at `index` and
      keeps the others in order. */
  function HandleRemoveItem(r: Record, name: string, index: nat): (r': Record)
    requires IsList(r, name)
    ensures OnlyKeyChanged(r, r', name) && r'[name].Arr?
    ensures r'[name].items == RemoveAt(r[name].items, index)
    ensures WellShaped(r) ==> WellShaped(r')
  {
    var items := r[name].items;
    FilterIsSplice(items, index);
    r[name := Arr(FilterOutIndex(items, index))]
  }

  /** Adding an item and removing the last index gives back the record. */
  lemma AddThenRemove(r: Record, name: string, defaultValue: string)
    requires IsList(r, name)
    ensures HandleRemoveItem(HandleAddItem(r, name, defaultValue), name, |r[name].items|) == r
  {
    AppendThenRemoveLast(r[name].items, Str(defaultValue));
    assert r[name := Arr(r[name].items)] == r;
  }

  /** Submit sends the record without any check of its own; only a successful
      reply stores the profile flag, after the navigation and before the toast
      and the reload. */
  method HandleSubmit(store: SessionStore, ok: bool) returns (effects: seq<Effect>)
    modifies store
    ensures ok ==> store.items == old(store.items)[HasProfileKey := "true"]
    ensures !ok ==> store.items == old(store.items)
    ensures ok ==> effects == [Send(PUT, "/company/profile"), Navigate("/employer-dashboard/company-profile"),
                               ToastSuccess("Profile Updated Successfully"), Reload]
    ensures !ok ==> effects == [Send(PUT, "/company/profile")]
  {
    effects := [Send(PUT, "/company/profile")];
    if ok {
      effects := effects + [Navigate("/employer-dashboard/company-profile")];
      store.SetItem(HasProfileKey, "true");
      effects := effects + [ToastSuccess("Profile Updated Successfully"), Reload];
    }
  }
}
