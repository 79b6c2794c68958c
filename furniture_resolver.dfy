/** src/graphql/resolvers/furnitureResolver.ts: the furniture catalogue. `createFurniture` and
    `updateFurniture` catch everything, their own not-found errors included, and report
    INTERNAL_SERVER_ERROR; `deleteFurniture` reports every failure as FURNITURE_NOT_FOUND. */
module FurnitureResolver {
  import opened Wrappers
  import opened Errors
  import opened Store
  import opened WishlistResolver

  /** The `data` object of `updateFurniture` applied to the stored record: each argument is spread
      in only when it is truthy, so "", 0 and null all keep the stored value. */
  function MergeFurniture(
    f: Furniture, title: Option<string>, description: Option<string>, price: Option<real>, categoryId: Option<int>)
    : (r: Furniture)
    ensures r.id == f.id
    ensures r.title == (if TruthyString(title) then title.value else f.title)
    ensures r.description == (if TruthyString(description) then description.value else f.description)
    ensures r.price == (if TruthyReal(price) then price.value else f.price)
    ensures r.categoryId == (if TruthyInt(categoryId) then categoryId.value else f.categoryId)
  {
    f.(title := if TruthyString(title) then title.value else f.title,
       description := if TruthyString(description) then description.value else f.description,
       price := if TruthyReal(price) then price.value else f.price,
       categoryId := if TruthyInt(categoryId) then categoryId.value else f.categoryId)
  }

  /** `furnitures()`: every record. */
  method AllFurniture(db: Database) returns (r: map<int, Furniture>)
    requires db.Valid()
    ensures r == db.furniture
    ensures forall id | id in r :: r[id].id == id
  {
    r := db.furniture;
  }

  /** `furniture(id)`: the record with that id, or null. */
  method FurnitureById(db: Database, id: int) returns (r: Option<Furniture>)
    requires db.Valid()
    ensures r.None? <==> id !in db.furniture
    ensures r.Some? ==> r.value == db.furniture[id] && r.value.id == id
  {
    if id !in db.furniture {
      return None;
    }
    return Some(db.furniture[id]);
  }

  /** `createFurniture(title, description, price, categoryId)`: the CATEGORY_NOT_FOUND thrown inside
      the try block is replaced by INTERNAL_SERVER_ERROR. */
  method CreateFurniture(db: Database, title: string, description: string, price: real, categoryId: int)
    returns (r: Result<Furniture>)
    requires db.Valid()
    modifies db`furniture, db`nextFurnitureId
    ensures db.Valid()
    ensures categoryId !in db.categories ==>
              r == Err(InternalServerError) && db.furniture == old(db.furniture)
              && db.nextFurnitureId == old(db.nextFurnitureId)
    ensures categoryId in db.categories ==>
              r == Ok(Furniture(old(db.nextFurnitureId), title, description, price, categoryId))
              && db.furniture == old(db.furniture)[old(db.nextFurnitureId) := r.value]
              && db.nextFurnitureId == old(db.nextFurnitureId) + 1
  {
    var body: Result<Furniture>;
    if categoryId !in db.categories {
      body := Err(CategoryNotFound);
    } else {
      var created := Furniture(db.nextFurnitureId, title, description, price, categoryId);
      db.furniture := db.furniture[created.id := created];
      db.nextFurnitureId := db.nextFurnitureId + 1;
      body := Ok(created);
    }
    r := Rethrow(body, InternalServerError);
  }

  /** `updateFurniture(id, title?, description?, price?, categoryId?)`: a missing record gives a
      FURNITURE_NOT_FOUND that is replaced by INTERNAL_SERVER_ERROR; connecting a missing category
      makes the ORM fail, reported the same way. */
  method UpdateFurniture(
    db: Database, id: int, title: Option<string>, description: Option<string>, price: Option<real>,
    categoryId: Option<int>)
    returns (r: Result<Furniture>)
    requires db.Valid()
    modifies db`furniture
    ensures db.Valid()
    ensures id !in old(db.furniture) || (TruthyInt(categoryId) && categoryId.value !in db.categories) ==>
              r == Err(InternalServerError) && db.furniture == old(db.furniture)
    ensures id in old(db.furniture) && (TruthyInt(categoryId) ==> categoryId.value in db.categories) ==>
              r == Ok(MergeFurniture(old(db.furniture)[id], title, description, price, categoryId))
              && db.furniture == old(db.furniture)[id := r.value]
  {
    var body: Result<Furniture>;
    if id !in db.furniture {
      body := Err(FurnitureNotFound);
    } else if TruthyInt(categoryId) && categoryId.value !in db.categories {
      body := Err(Orm(RecordNotFound));
    } else {
      var updated := MergeFurniture(db.furniture[id], title, description, price, categoryId);
      db.furniture := db.furniture[id := updated];
      body := Ok(updated);
    }
    r := Rethrow(body, InternalServerError);
  }

  /** `deleteFurniture(id)`: removes the record and returns it; the join-table rows naming it go
      with it. */
  method DeleteFurniture(db: Database, id: int) returns (r: Result<Furniture>)
    requires db.Valid()
    modifies db`furniture, db`favourites
    ensures db.Valid()
    ensures id !in old(db.furniture) ==>
              r == Err(FurnitureNotFound) && db.furniture == old(db.furniture) && db.favourites == old(db.favourites)
    ensures id in old(db.furniture) ==>
              r == Ok(old(db.furniture)[id]) && db.furniture == old(db.furniture) - {id}
              && db.favourites == set f | f in old(db.favourites) && f.furnitureId != id
  {
    var body: Result<Furniture>;
    if id !in db.furniture {
      body := Err(Orm(RecordNotFound));
    } else {
      body := Ok(db.furniture[id]);
      db.furniture := db.furniture - {id};
      db.favourites := set f | f in db.favourites && f.furnitureId != id;
    }
    r := Rethrow(body, FurnitureNotFound);
  }

  /** Falsy arguments (null, "", 0) leave the record as it was: an empty title, a price of 0 or a
      category id of 0 cannot be set. */
  lemma FalsyArgumentsKeepRecord(
    f: Furniture, title: Option<string>, description: Option<string>, price: Option<real>, categoryId: Option<int>)
    requires !TruthyString(title) && !TruthyString(description) && !TruthyReal(price) && !TruthyInt(categoryId)
    ensures MergeFurniture(f, title, description, price, categoryId) == f
  {
  }

  /** Applying the same update twice is the same as applying it once. */
  lemma MergeIdempotent(
    f: Furniture, title: Option<string>, description: Option<string>, price: Option<real>, categoryId: Option<int>)
    ensures var g := MergeFurniture(f, title, description, price, categoryId);
            MergeFurniture(g, title, description, price, categoryId) == g
  {
  }

  /** Deleting furniture removes it from every user's favourites and leaves the others. */
  lemma {:induction false} DeleteRemovesFromFavourites(favourites: set<Favourite>, id: int, userId: int)
    ensures FavouriteIds((set f | f in favourites && f.furnitureId != id), userId) == FavouriteIds(favourites, userId) - {id}
  {
    var after := set f | f in favourites && f.furnitureId != id;
    forall fid
      ensures fid in FavouriteIds(after, userId) <==> fid in FavouriteIds(favourites, userId) - {id}
    {
      assert Favourite(userId, fid) in after <==> Favourite(userId, fid) in favourites && fid != id;
    }
  }
}
