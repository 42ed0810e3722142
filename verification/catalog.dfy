/**
 The fixed place catalogs and the filter that decides which places the
 "Pick a place" screen offers for a given date type.
 */
module Catalog {

  /** The four date types offered on the "Pick a date" screen, in screen order. */
  const BreakfastDate: string := "Breakfast n Hotel"
  const NoRestaurantDate: string := "Hotel n u turns"
  const DinnerDate: string := "Hotel n Dinner"
  const CombinedDate: string := "Food n u turns"

  const DateTypes: seq<string> := [BreakfastDate, NoRestaurantDate, DinnerDate, CombinedDate]

  /** The option that asks for a free-text place. */
  const CustomOption: string := "Custom"

  const BreakfastPlaces: seq<string> :=
    ["German Bakery", "Beans n Bakery", "French Window", "Le Flemington", "Zen Cafe"]

  const DinnerPlaces: seq<string> :=
    ["Mister Merchants", "Tsuki", "Cafe Paash", "Kukoo"]

  /** A place named in one of the two fixed catalogs. */
  predicate IsCatalogPlace(p: string) {
    p in BreakfastPlaces || p in DinnerPlaces
  }

  /** No element occurs twice (the screen uses each option as a rendering key). */
  predicate Distinct(s: seq<string>) {
    forall i, j :: 0 <= i < j < |s| ==> s[i] != s[j]
  }

  /** The date types that lead to the "Pick a place" screen. */
  predicate OffersPlaces(dateChoice: string) {
    dateChoice == BreakfastDate || dateChoice == DinnerDate || dateChoice == CombinedDate
  }

  /** The places offered for a date type; empty for every other value. */
  function RestaurantOptions(dateChoice: string): (r: seq<string>)
    ensures dateChoice == BreakfastDate ==> r == BreakfastPlaces + [CustomOption]
    ensures dateChoice == DinnerDate ==> r == DinnerPlaces + [CustomOption]
    ensures dateChoice == CombinedDate ==> r == BreakfastPlaces + DinnerPlaces + [CustomOption]
    ensures r == [] <==> !OffersPlaces(dateChoice)
  {
    if dateChoice == BreakfastDate then
      BreakfastPlaces + [CustomOption]
    else if dateChoice == DinnerDate then
      DinnerPlaces + [CustomOption]
    else if dateChoice == CombinedDate then
      BreakfastPlaces + DinnerPlaces + [CustomOption]
    else
      []
  }

  /** Every non-empty option list ends in the custom option, has 6, 5 or 10
      entries, and has no repeated entry; every other entry is a catalog place. */
  lemma OptionsShape(dateChoice: string)
    ensures var r := RestaurantOptions(dateChoice);
      r != [] ==>
        && r[|r| - 1] == CustomOption
        && |r| in {5, 6, 10}
        && Distinct(r)
        && forall i :: 0 <= i < |r| - 1 ==> IsCatalogPlace(r[i]) && r[i] != CustomOption
  {
  }

  /** The date type without a restaurant, and the empty initial value, offer no places. */
  lemma NoRestaurantOffersNothing()
    ensures RestaurantOptions(NoRestaurantDate) == []
    ensures RestaurantOptions("") == []
  {
  }

  /** The combined date type offers exactly the catalog places and the custom option. */
  lemma CombinedOffersEveryPlace(p: string)
    ensures p in RestaurantOptions(CombinedDate) <==> IsCatalogPlace(p) || p == CustomOption
  {
  }
}
