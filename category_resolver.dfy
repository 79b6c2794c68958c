/** src/graphql/resolvers/categoryResolver.ts: furniture categories. `deleteCategory` addresses a
    category by its name, so names are unique in the schema; `createCategory` catches nothing, and a
    duplicate name reaches the client as the ORM's unique-constraint error. */
module CategoryResolver {
  import opened Errors
  import opened Store

  /** Some category has this name. */
  predicate HasCategoryNamed(categories: map<int, Category>, name: string) {
    exists k | k in categories :: categories[k].name == name
  }

  /** The id of the category with this name; there is only one (`Database.CatalogueValid`). */
  ghost function CategoryIdNamed(categories: map<int, Category>, name: string): (k: int)
    requires HasCategoryNamed(categories, name)
    ensures k in categories && categories[k].name == name
  {
    var k :| k in categories && categories[k].name == name; k
  }

  /** `categories()`: every category. */
  method AllCategories(db: Database) returns (r: map<int, Category>)
    requires db.Valid()
    ensures r == db.categories
    ensures forall id | id in r :: r[id].id == id
  {
    r := db.categories;
  }

  /** `createCategory(name)`. */
  method CreateCategory(db: Database, name: string) returns (r: Result<Category>)
    requires db.Valid()
    modifies db`categories, db`nextCategoryId
    ensures db.Valid()
    ensures HasCategoryNamed(old(db.categories), name) ==>
              r == Err(Orm(UniqueConstraint)) && db.categories == old(db.categories)
              && db.nextCategoryId == old(db.nextCategoryId)
    ensures !HasCategoryNamed(old(db.categories), name) ==>
              r == Ok(Category(old(db.nextCategoryId), name))
              && db.categories == old(db.categories)[old(db.nextCategoryId) := r.value]
              && db.nextCategoryId == old(db.nextCategoryId) + 1
              && HasCategoryNamed(db.categories, name)
  {
    if HasCategoryNamed(db.categories, name) {
      return Err(Orm(UniqueConstraint));
    }
    var created := Category(db.nextCategoryId, name);
    db.categories := db.categories[created.id := created];
    db.nextCategoryId := db.nextCategoryId + 1;
    assert db.categories[created.id].name == name;
    return Ok(created);
  }

  /** `deleteCategory(name)`: removes the category with that name and returns it; every failure is
      reported as CATEGORY_NOT_FOUND. */
  method DeleteCategory(db: Database, name: string) returns (r: Result<Category>)
    requires db.Valid()
    modifies db`categories
    ensures db.Valid()
    ensures !HasCategoryNamed(old(db.categories), name) ==>
              r == Err(CategoryNotFound) && db.categories == old(db.categories)
    ensures HasCategoryNamed(old(db.categories), name) ==>
              var k := CategoryIdNamed(old(db.categories), name);
              r == Ok(old(db.categories)[k]) && db.categories == old(db.categories) - {k}
              && !HasCategoryNamed(db.categories, name)
  {
    var body: Result<Category>;
    if !HasCategoryNamed(db.categories, name) {
      body := Err(Orm(RecordNotFound));
    } else {
      var k :| k in db.categories && db.categories[k].name == name;
      assert k == CategoryIdNamed(db.categories, name);
      body := Ok(db.categories[k]);
      db.categories := db.categories - {k};
    }
    r := Rethrow(body, CategoryNotFound);
  }

  /** Removing the category with a name leaves no category of that name when names are unique, and
      keeps every other category. */
  lemma {:induction false} RemoveNamedCategory(categories: map<int, Category>, k: int, name: string)
    requires k in categories && categories[k].name == name
    requires forall k1, k2 | k1 in categories && k2 in categories && categories[k1].name == categories[k2].name :: k1 == k2
    ensures !HasCategoryNamed(categories - {k}, name)
    ensures forall other | other != name :: HasCategoryNamed(categories - {k}, other) <==> HasCategoryNamed(categories, other)
  {
    forall other | other != name && HasCategoryNamed(categories, other)
      ensures HasCategoryNamed(categories - {k}, other)
    {
      var j :| j in categories && categories[j].name == other;
      assert j != k && (categories - {k})[j].name == other;
    }
  }
}
