/** The restaurant records of the search screen and the fixed catalogue that
    `RestaurantManager` serves. */
module Restaurants {
  import opened Sequences
  import opened Sets
  import opened Text

  /** `CuisineOption`, a string-backed enumeration. */
  datatype Cuisine = American | Italian | Japanese {
    /** The enumeration's raw value: the case name, a word of lower-case letters. */
    function RawValue(): (r: string)
      ensures r != [] && forall i :: 0 <= i < |r| ==> IsLower(r[i])
    {
      match this
      case American => "american"
      case Italian => "italian"
      case Japanese => "japanese"
    }
  }

  datatype Restaurant = Restaurant(id: string, title: string, cuisine: Cuisine)

  /** `RestaurantManager.getAllRestaurants()`: four restaurants with the distinct
      ids "1" to "4", covering all three cuisines. It never fails. */
  function GetAllRestaurants(): (r: seq<Restaurant>)
    ensures |r| == 4
    ensures forall i :: 0 <= i < 4 ==> r[i].id == [('1' as int + i) as char]
    ensures forall i, j :: 0 <= i < j < |r| ==> r[i].id != r[j].id
    ensures Cuisines(r) == {American, Italian, Japanese}
  {
    [
      Restaurant("1", "Burger Rest", American),
      Restaurant("2", "Pasta Rest", Italian),
      Restaurant("3", "Sushi Rest", Japanese),
      Restaurant("4", "Katyusha", American)
    ]
  }

  /** The distinct cuisines of `rs`: `Set(rs.map { $0.cuisine })`. */
  function Cuisines(rs: seq<Restaurant>): (r: set<Cuisine>)
    ensures forall x :: x in rs ==> x.cuisine in r
    ensures forall c :: c in r ==> exists x :: x in rs && x.cuisine == c
  {
    set r | r in rs :: r.cuisine
  }

  /** `rs.filter { $0.cuisine == c }`. */
  function OfCuisine(rs: seq<Restaurant>, c: Cuisine): (r: seq<Restaurant>)
    ensures forall x :: x in r <==> x in rs && x.cuisine == c
    ensures forall x :: multiset(r)[x] == if x.cuisine == c then multiset(rs)[x] else 0
    ensures IsSubsequence(r, rs)
  {
    Filter((x: Restaurant) => x.cuisine == c, rs)
  }

  /** A restaurant list has at most three distinct cuisines. */
  lemma CuisinesBound(rs: seq<Restaurant>)
    ensures |Cuisines(rs)| <= 3
  {
    var every := {American, Italian, Japanese};
    forall c | c in Cuisines(rs) ensures c in every {
      match c
      case American =>
      case Italian =>
      case Japanese =>
    }
    assert |every| == 3;
    SubsetCardinality(Cuisines(rs), every);
  }
}
