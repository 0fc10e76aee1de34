/**
 * The catalog returned by the food-listing endpoint and its normalisation:
 * a nested list of categories, each holding food records, is flattened into
 * one list of foods tagged with their category name; the home page also
 * de-duplicates that list by `id` and derives the list of category names.
 */
module Catalog {
  import opened Maybe
  import opened Seqs
  import opened Keyed
  import Text

  /**
   * One food record as the endpoint returns it. Every field except `id`,
   * `itemName` and `threeDPicture` is opaque display data; a missing field is
   * the empty string, which JavaScript treats as falsy.
   */
  datatype Item = Item(
    id: int,
    itemName: string,
    price: string,
    time: string,
    description: string,
    size: string,
    normalPicture: string,
    threeDPicture: string,
    discount: string)

  /** One entry of the response: `{category_name, foods}`. */
  datatype Category = Category(categoryName: string, foods: seq<Item>)

  /** `{...food, category: category_name}`: the record plus its category name. */
  datatype Food = Food(item: Item, category: string)

  /** The de-duplication key of a food. */
  function IdOf(f: Food): int { f.item.id }

  /** The total number of food records in a response. */
  function Count(cats: seq<Category>): nat
    decreases |cats|
  {
    if |cats| == 0 then 0 else |cats[0].foods| + Count(cats[1..])
  }

  /** `category.foods.map(food => ({...food, category: category.category_name}))`. */
  function Tag(c: Category): (r: seq<Food>)
    ensures |r| == |c.foods|
    ensures forall j :: 0 <= j < |r| ==> r[j].item == c.foods[j] && r[j].category == c.categoryName
  {
    seq(|c.foods|, j requires 0 <= j < |c.foods| => Food(c.foods[j], c.categoryName))
  }

  /** `response.data.flatMap(category => ...)`: every food tagged with its category, in response order. */
  function Flatten(cats: seq<Category>): (r: seq<Food>)
    ensures |r| == Count(cats)
    decreases |cats|
  {
    if |cats| == 0 then [] else Tag(cats[0]) + Flatten(cats[1..])
  }

  lemma {:induction false} CountConcat(a: seq<Category>, b: seq<Category>)
    ensures Count(a + b) == Count(a) + Count(b)
    decreases |a|
  {
    if |a| == 0 {
      assert a + b == b;
    } else {
      assert (a + b)[1..] == a[1..] + b;
      CountConcat(a[1..], b);
    }
  }

  lemma {:induction false} FlattenConcat(a: seq<Category>, b: seq<Category>)
    ensures Flatten(a + b) == Flatten(a) + Flatten(b)
    decreases |a|
  {
    if |a| == 0 {
      assert a + b == b;
    } else {
      assert (a + b)[1..] == a[1..] + b;
      FlattenConcat(a[1..], b);
    }
  }

  /**
   * Flattening keeps response order and touches no field but `category`:
   * the j-th food of the c-th category sits right after all foods of the
   * categories before it, carrying the record unchanged and that category's name.
   */
  lemma FlattenPosition(cats: seq<Category>, c: nat, j: nat)
    requires c < |cats| && j < |cats[c].foods|
    ensures Count(cats[..c]) + j < |Flatten(cats)|
    ensures Flatten(cats)[Count(cats[..c]) + j] == Food(cats[c].foods[j], cats[c].categoryName)
  {
    assert cats == cats[..c] + cats[c..];
    FlattenConcat(cats[..c], cats[c..]);
    CountConcat(cats[..c], cats[c..]);
    assert cats[c..][0] == cats[c];
  }

  /** `Array.from(new Map(foods.map(f => [f.id, f])).values())`. */
  function Dedup(fs: seq<Food>): (r: seq<Food>)
    ensures MapOf(fs, IdOf, r)
  {
    DedupBySpec(fs, IdOf);
    DedupBy(fs, IdOf)
  }

  /** When no id repeats (categories do not overlap), de-duplication changes nothing. */
  lemma DedupDistinctIds(fs: seq<Food>)
    requires UniqueKeys(fs, IdOf)
    ensures Dedup(fs) == fs
  {
    DedupByUnique(fs, IdOf);
  }

  /** `food.category.toLowerCase() === c.toLowerCase()`, the match every listing page uses. */
  predicate SameCategory(c: string, f: Food) { Text.Lower(f.category) == Text.Lower(c) }

  predicate HasFoods(c: Category) { |c.foods| > 0 }

  /** The identity key: a `Set` of names de-duplicates the names themselves. */
  function Identity(s: string): string { s }

  /** The names of the categories that hold at least one food, in response order. */
  function NonEmptyNames(cats: seq<Category>): (r: seq<string>)
    ensures |r| == |Filter(cats, HasFoods)|
    ensures forall i :: 0 <= i < |r| ==> r[i] == Filter(cats, HasFoods)[i].categoryName
  {
    var kept := Filter(cats, HasFoods);
    seq(|kept|, i requires 0 <= i < |kept| => kept[i].categoryName)
  }

  /** A name is among the non-empty names exactly when some category with foods carries it. */
  lemma NonEmptyNamesMembers(cats: seq<Category>, n: string)
    ensures n in NonEmptyNames(cats) <==> exists i :: 0 <= i < |cats| && HasFoods(cats[i]) && cats[i].categoryName == n
  {
    var names := NonEmptyNames(cats);
    var kept := Filter(cats, HasFoods);
    if n in names {
      var k :| 0 <= k < |names| && names[k] == n;
      assert kept[k] in kept;
      FilterMember(cats, HasFoods, kept[k]);
      var i :| 0 <= i < |cats| && cats[i] == kept[k];
    }
    if exists i :: 0 <= i < |cats| && HasFoods(cats[i]) && cats[i].categoryName == n {
      var i :| 0 <= i < |cats| && HasFoods(cats[i]) && cats[i].categoryName == n;
      FilterMember(cats, HasFoods, cats[i]);
      var k :| 0 <= k < |kept| && kept[k] == cats[i];
      assert names[k] == n;
    }
  }

  /** Under the identity key, the keys of a list of names are its members. */
  lemma KeysOfNames(names: seq<string>, n: string)
    ensures n in Keys(names, Identity) <==> n in names
  {
    if n in names {
      var k :| 0 <= k < |names| && names[k] == n;
      assert Identity(names[k]) == n;
    }
  }

  /** The synthetic category that stands for the unfiltered view. */
  const AllCategory := "All"

  /**
   * `['All', ...new Set(names of categories with foods)]`: "All" first, then
   * each name of a non-empty category once, in the order the names first
   * appear among the non-empty categories.
   */
  function DeriveCategories(cats: seq<Category>): (r: seq<string>)
    ensures |r| >= 1 && r[0] == AllCategory
    ensures UniqueKeys(r[1..], Identity)
    ensures forall n :: n in r[1..] <==> exists i :: 0 <= i < |cats| && HasFoods(cats[i]) && cats[i].categoryName == n
    ensures forall i, j :: 1 <= i < j < |r| ==>
      FirstIndex(NonEmptyNames(cats), Identity, r[i]) < FirstIndex(NonEmptyNames(cats), Identity, r[j])
  {
    var names := NonEmptyNames(cats);
    var distinct := DedupBy(names, Identity);
    DedupBySpec(names, Identity);
    var r := [AllCategory] + distinct;
    assert r[1..] == distinct;
    forall n
      ensures n in distinct <==> exists i :: 0 <= i < |cats| && HasFoods(cats[i]) && cats[i].categoryName == n
    {
      KeysOfNames(distinct, n);
      KeysOfNames(names, n);
      NonEmptyNamesMembers(cats, n);
    }
    r
  }
}
