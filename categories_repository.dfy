/**
 * The `categories` table of src/repository/CategoriesRepository.php, as a map
 * from category id to row.
 */
module CategoriesRepository {
  import opened Wrappers
  import opened Sorting
  import opened Tables

  datatype CategoryRow = CategoryRow(categoryId: int, userId: int, name: string)

  /** Lexicographic order on strings by character code. */
  predicate LexLe(a: string, b: string) {
    if a == [] then true
    else if b == [] then false
    else if a[0] != b[0] then a[0] < b[0]
    else LexLe(a[1..], b[1..])
  }

  lemma {:induction false} LexLeTotal(a: string, b: string)
    ensures LexLe(a, b) || LexLe(b, a)
  {
    if a != [] && b != [] && a[0] == b[0] {
      LexLeTotal(a[1..], b[1..]);
    }
  }

  lemma {:induction false} LexLeTransitive(a: string, b: string, c: string)
    requires LexLe(a, b) && LexLe(b, c)
    ensures LexLe(a, c)
  {
    if a != [] && b != [] && c != [] && a[0] == b[0] && b[0] == c[0] {
      LexLeTransitive(a[1..], b[1..], c[1..]);
    }
  }

  /** `ORDER BY categoryname ASC`. */
  predicate NameAsc(a: CategoryRow, b: CategoryRow) {
    LexLe(a.name, b.name)
  }

  lemma NameAscIsPreorder()
    ensures TotalPreorder(NameAsc)
  {
    forall a: CategoryRow, b: CategoryRow ensures NameAsc(a, b) || NameAsc(b, a) {
      LexLeTotal(a.name, b.name);
    }
    forall a: CategoryRow, b: CategoryRow, c: CategoryRow | NameAsc(a, b) && NameAsc(b, c)
      ensures NameAsc(a, c)
    {
      LexLeTransitive(a.name, b.name, c.name);
    }
  }

  function OwnedBy(userId: int): CategoryRow -> bool {
    (c: CategoryRow) => c.userId == userId
  }

  /** In a table whose rows sit under their own ids, a row is found under its id. */
  lemma StoredUnderOwnId(m: map<int, CategoryRow>)
    requires forall id | id in m :: m[id].categoryId == id
    ensures forall c | c in m.Values :: c.categoryId in m && m[c.categoryId] == c
  {
    forall c | c in m.Values ensures c.categoryId in m && m[c.categoryId] == c {
      if forall id | id in m :: m[id] != c {
        assert false;
      }
    }
  }

  class CategoriesRepository {
    var categories: map<int, CategoryRow>
    /** The next value of the table's serial id. */
    var nextId: int

    ghost predicate Valid()
      reads this
    {
      forall id | id in categories :: categories[id].categoryId == id && id < nextId
    }

    constructor ()
      ensures Valid() && categories == map[]
    {
      categories := map[];
      nextId := 1;
    }

    /** `getCategoriesByUserId`: the user's categories by ascending name, or null when there are none. */
    function GetCategoriesByUserId(userId: int): (r: Option<seq<CategoryRow>>)
      reads this
      ensures r.None? <==> forall id | id in categories :: categories[id].userId != userId
      ensures r.Some? ==> SortedBy(r.value, NameAsc)
      ensures r.Some? ==> forall c :: c in r.value <==> c in categories.Values && c.userId == userId
      ensures r.Some? ==> multiset(r.value) == multiset(Select(categories, OwnedBy(userId)))
    {
      NameAscIsPreorder();
      var rows := OrderedSelect(categories, OwnedBy(userId), NameAsc);
      if rows == [] then None else Some(rows)
    }

    /** `getCategory`: the row with that id, or null. */
    function GetCategory(categoryId: int): (r: Option<CategoryRow>)
      reads this
      ensures r.None? <==> categoryId !in categories
      ensures r.Some? ==> r.value == categories[categoryId]
    {
      if categoryId in categories then Some(categories[categoryId]) else None
    }

    /** `categoryExists`: some row has this id and this owner. */
    function CategoryExists(categoryId: int, userId: int): (b: bool)
      reads this
      requires Valid()
      ensures b <==> exists c :: c in categories.Values && c.categoryId == categoryId && c.userId == userId
    {
      if categoryId in categories && categories[categoryId].userId == userId then
        assert categories[categoryId] in categories.Values;
        true
      else
        StoredUnderOwnId(categories);
        false
    }

    /** `createCategory`: adds one row for the user under the next serial id. */
    method CreateCategory(userId: int, name: string)
      requires Valid()
      modifies this
      ensures Valid()
      ensures old(nextId) !in old(categories)
      ensures categories == old(categories)[old(nextId) := CategoryRow(old(nextId), userId, name)]
    {
      categories := categories[nextId := CategoryRow(nextId, userId, name)];
      nextId := nextId + 1;
    }

    /** `updateCategory`: renames that category, if it exists, and nothing else. */
    method UpdateCategory(categoryId: int, name: string)
      requires Valid()
      modifies this
      ensures Valid() && nextId == old(nextId)
      ensures categories.Keys == old(categories).Keys
      ensures forall id | id in categories && id != categoryId :: categories[id] == old(categories)[id]
      ensures categoryId in categories ==> categories[categoryId] == old(categories)[categoryId].(name := name)
    {
      if categoryId in categories {
        categories := categories[categoryId := categories[categoryId].(name := name)];
      }
    }

    /** `deleteCategory`: removes that one row. */
    method DeleteCategory(categoryId: int)
      requires Valid()
      modifies this
      ensures Valid() && nextId == old(nextId)
      ensures categories == old(categories) - {categoryId}
    {
      categories := categories - {categoryId};
    }
  }
}
