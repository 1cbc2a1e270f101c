/** The in-memory category store: a list of category records changed in place by
    `create`, `update` and `delete`; `getAll` hands out a copy sorted by `order`. */
module CategoryApi {
  import opened Wrappers
  import opened Seqs
  import opened Records

  const CategoryNotFound := "Category not found"
  const DefaultColor := "#5B4FE9"

  /** The position of the category `id` names, or -1. */
  function Find(cs: seq<Category>, id: IdArg): int {
    Locate(CategoryIds(cs), ParsedId(id))
  }

  /** `(a, b) => a.order - b.order` */
  function CompareByOrder(a: Category, b: Category): int {
    a.order - b.order
  }

  lemma CompareByOrderIsPreorder()
    ensures IsTotalPreorder(CompareByOrder)
  {
  }

  /** `[...categories].sort(CompareByOrder)` */
  function SortedByOrder(cs: seq<Category>): (r: seq<Category>)
    ensures multiset(r) == multiset(cs)
  {
    Sort(cs, CompareByOrder)
  }

  /** The copy `getAll` returns holds the same categories, in ascending `order`. */
  lemma SortedByOrderIsOrdered(cs: seq<Category>)
    ensures multiset(SortedByOrder(cs)) == multiset(cs) && |SortedByOrder(cs)| == |cs|
    ensures forall i, j | 0 <= i < j < |SortedByOrder(cs)| :: SortedByOrder(cs)[i].order <= SortedByOrder(cs)[j].order
  {
    CompareByOrderIsPreorder();
    SortSorted(cs, CompareByOrder);
    var r := SortedByOrder(cs);
    assert |r| == |multiset(r)| == |multiset(cs)| == |cs|;
  }

  /** `c.order === k` */
  function HasOrder(k: int): Category -> bool {
    (c: Category) => c.order == k
  }

  /** Categories sharing an `order` keep their stored relative order in the copy. */
  lemma SortedByOrderIsStable(cs: seq<Category>, k: int)
    ensures Filter(SortedByOrder(cs), HasOrder(k)) == Filter(cs, HasOrder(k))
  {
    var a := Category(0, "", "", k);
    SortedByOrderKeepsTies(cs, a);
    TiedOrderIsHasOrder(k);
    FilterExt(SortedByOrder(cs), TiedWith(CompareByOrder, a), HasOrder(k));
    FilterExt(cs, TiedWith(CompareByOrder, a), HasOrder(k));
  }

  lemma SortedByOrderKeepsTies(cs: seq<Category>, a: Category)
    ensures Filter(SortedByOrder(cs), TiedWith(CompareByOrder, a)) == Filter(cs, TiedWith(CompareByOrder, a))
  {
    CompareByOrderIsPreorder();
    SortStable(cs, CompareByOrder, a);
  }

  /** Comparing equal to a category of order `k` is having order `k`. */
  lemma TiedOrderIsHasOrder(k: int)
    ensures forall c: Category :: TiedWith(CompareByOrder, Category(0, "", "", k))(c) == HasOrder(k)(c)
  {
    var a := Category(0, "", "", k);
    forall c: Category
      ensures TiedWith(CompareByOrder, a)(c) == HasOrder(k)(c)
    {
      assert CompareByOrder(a, c) == k - c.order && CompareByOrder(c, a) == c.order - k;
    }
  }

  /** The record `create(data)` stores next to `existing`: the defaults, then every
      field `data` supplies spread over them (so even `order: 0` is kept). */
  function NewCategory(existing: seq<Category>, data: CategoryFields): (c: Category)
    requires data.name.Some?
    ensures data.id.None? ==> c.id !in CategoryIds(existing) && forall i | 0 <= i < |existing| :: existing[i].id < c.id
    ensures data.id.None? && existing == [] ==> c.id == 1
    ensures data.id.Some? ==> c.id == data.id.value
    ensures c.name == data.name.value
    ensures c.color == data.color.GetOr(DefaultColor)
    ensures c.order == data.order.GetOr(|existing| + 1)
  {
    MergeCategory(Category(NextId(CategoryIds(existing)), data.name.value, DefaultColor, |existing| + 1), data)
  }

  lemma SameIdsAfterReplace(cs: seq<Category>, i: nat, c: Category)
    requires i < |cs| && c.id == cs[i].id
    ensures CategoryIds(cs[i := c]) == CategoryIds(cs)
  {
  }

  lemma IdsAfterRemove(cs: seq<Category>, i: nat)
    requires i < |cs|
    ensures CategoryIds(cs[..i] + cs[i + 1..]) == CategoryIds(cs)[..i] + CategoryIds(cs)[i + 1..]
  {
  }

  class CategoryService {
    /** `this.categories` */
    var categories: seq<Category>

    constructor (seed: seq<Category>)
      ensures categories == seed
    {
      categories := seed;
    }

    /** `getAll()`: a sorted copy; the stored list keeps its own order. */
    method GetAll() returns (r: seq<Category>)
      ensures r == SortedByOrder(categories)
    {
      r := SortedByOrder(categories);
    }

    /** `getById(id)`: the first category whose `Id` is `parseInt(id)`, or "Category not found". */
    method GetById(id: IdArg) returns (r: Result<Category>)
      ensures r.Err? <==> ParsedId(id).None? || ParsedId(id).value !in CategoryIds(categories)
      ensures r.Err? ==> r == Err(CategoryNotFound)
      ensures r.Ok? ==> r.value == categories[Find(categories, id)] && r.value.id == ParsedId(id).value
    {
      var i := Find(categories, id);
      if i < 0 {
        return Err(CategoryNotFound);
      }
      return Ok(categories[i]);
    }

    /** `create(data)`: appends one category with a fresh id and returns it. */
    method Create(data: CategoryFields) returns (c: Category)
      requires data.name.Some?
      modifies this
      ensures c == NewCategory(old(categories), data)
      ensures categories == old(categories) + [c]
      ensures data.id.None? && UniqueIds(CategoryIds(old(categories))) ==> UniqueIds(CategoryIds(categories))
    {
      c := NewCategory(categories, data);
      if data.id.None? {
        AppendFreshId(CategoryIds(categories), c.id);
        assert CategoryIds(categories + [c]) == CategoryIds(categories) + [c.id];
      }
      categories := categories + [c];
    }

    /** `update(id, data)`: merges `data` into the first category with that id, or
        fails with "Category not found" and changes nothing. */
    method Update(id: IdArg, data: CategoryFields) returns (r: Result<Category>)
      modifies this
      ensures var i := Find(old(categories), id);
        if i < 0 then r == Err(CategoryNotFound) && categories == old(categories)
        else categories == old(categories)[i := MergeCategory(old(categories)[i], data)] && r == Ok(categories[i])
      ensures data.id.None? ==> CategoryIds(categories) == CategoryIds(old(categories))
    {
      var i := Find(categories, id);
      if i < 0 {
        return Err(CategoryNotFound);
      }
      if data.id.None? {
        SameIdsAfterReplace(categories, i, MergeCategory(categories[i], data));
      }
      categories := categories[i := MergeCategory(categories[i], data)];
      r := Ok(categories[i]);
    }

    /** `delete(id)`: removes the first category with that id, or fails with
        "Category not found" and changes nothing. */
    method Delete(id: IdArg) returns (r: Result<bool>)
      modifies this
      ensures var i := Find(old(categories), id);
        if i < 0 then r == Err(CategoryNotFound) && categories == old(categories)
        else categories == old(categories)[..i] + old(categories)[i + 1..] && r == Ok(true)
      ensures UniqueIds(CategoryIds(old(categories))) ==> UniqueIds(CategoryIds(categories))
    {
      var i := Find(categories, id);
      if i < 0 {
        return Err(CategoryNotFound);
      }
      IdsAfterRemove(categories, i);
      categories := categories[..i] + categories[i + 1..];
      r := Ok(true);
    }
  }
}
