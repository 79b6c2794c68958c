/** src/graphql/resolvers/wishlistResolver.ts: a user's favourite furniture, the rows of the
    users-to-furniture join table that name the user. Connecting and disconnecting are set
    insertion and removal. */
module WishlistResolver {
  import opened Wrappers
  import opened Errors
  import opened Store

  /** The ids of the furniture the user has marked as favourite. */
  function FavouriteIds(favourites: set<Favourite>, userId: int): (ids: set<int>)
    ensures forall fid :: fid in ids <==> Favourite(userId, fid) in favourites
  {
    set f | f in favourites && f.userId == userId :: f.furnitureId
  }

  /** `favourites: { connect: { id } }`. */
  function Connect(favourites: set<Favourite>, userId: int, furnitureId: int): (r: set<Favourite>)
    ensures FavouriteIds(r, userId) == FavouriteIds(favourites, userId) + {furnitureId}
    ensures forall other | other != userId :: FavouriteIds(r, other) == FavouriteIds(favourites, other)
  {
    var r := favourites + {Favourite(userId, furnitureId)};
    assert FavouriteIds(r, userId) == FavouriteIds(favourites, userId) + {furnitureId};
    r
  }

  /** `favourites: { disconnect: { id } }`. */
  function Disconnect(favourites: set<Favourite>, userId: int, furnitureId: int): (r: set<Favourite>)
    ensures FavouriteIds(r, userId) == FavouriteIds(favourites, userId) - {furnitureId}
    ensures forall other | other != userId :: FavouriteIds(r, other) == FavouriteIds(favourites, other)
  {
    var r := favourites - {Favourite(userId, furnitureId)};
    assert FavouriteIds(r, userId) == FavouriteIds(favourites, userId) - {furnitureId};
    r
  }

  /** The furniture records of the user's favourites. */
  function FavouriteFurniture(db: Database, userId: int): (r: map<int, Furniture>)
    reads db
    ensures forall fid :: fid in r <==> fid in db.furniture && Favourite(userId, fid) in db.favourites
    ensures forall fid | fid in r :: r[fid] == db.furniture[fid]
  {
    map fid | fid in db.furniture && Favourite(userId, fid) in db.favourites :: db.furniture[fid]
  }

  /** `getUserFavourites(email)`: null only for an unknown email; a user without favourites gets an
      empty list, since `[] || null` is `[]`. */
  method GetUserFavourites(db: Database, email: string) returns (r: Option<map<int, Furniture>>)
    requires db.Valid()
    ensures r.None? <==> email !in db.users
    ensures r.Some? ==> r.value == FavouriteFurniture(db, db.users[email].id)
    ensures r.Some? ==> r.value.Keys == FavouriteIds(db.favourites, db.users[email].id)
  {
    if email !in db.users {
      return None;
    }
    var userId := db.users[email].id;
    r := Some(FavouriteFurniture(db, userId));
    assert r.value.Keys == FavouriteIds(db.favourites, userId) by {
      forall fid | fid in FavouriteIds(db.favourites, userId)
        ensures fid in r.value
      {
        assert Favourite(userId, fid) in db.favourites;
      }
    }
  }

  /** `addToFavourites(email, furnitureId)`: the furniture must exist (FURNITURE_NOT_FOUND); an
      unknown email makes the ORM's update fail, uncaught. Returns the connected furniture. */
  method AddToFavourites(db: Database, email: string, furnitureId: int) returns (r: Result<Furniture>)
    requires db.Valid()
    modifies db`favourites
    ensures db.Valid()
    ensures furnitureId !in db.furniture ==> r == Err(FurnitureNotFound) && db.favourites == old(db.favourites)
    ensures furnitureId in db.furniture && email !in db.users ==>
              r == Err(Orm(RecordNotFound)) && db.favourites == old(db.favourites)
    ensures furnitureId in db.furniture && email in db.users ==>
              r == Ok(db.furniture[furnitureId]) && r.value.id == furnitureId
              && db.favourites == Connect(old(db.favourites), db.users[email].id, furnitureId)
              && furnitureId in FavouriteIds(db.favourites, db.users[email].id)
  {
    if furnitureId !in db.furniture {
      return Err(FurnitureNotFound);
    }
    if email !in db.users {
      return Err(Orm(RecordNotFound));
    }
    var userId := db.users[email].id;
    db.favourites := Connect(db.favourites, userId, furnitureId);
    return Ok(db.furniture[furnitureId]);
  }

  /** `removeFromFavourites(email, furnitureId)`: an unknown email makes the ORM's update fail,
      uncaught; otherwise the furniture leaves the user's favourites, whether or not it was there. */
  method RemoveFromFavourites(db: Database, email: string, furnitureId: int) returns (r: Result<bool>)
    requires db.Valid()
    modifies db`favourites
    ensures db.Valid()
    ensures email !in db.users ==> r == Err(Orm(RecordNotFound)) && db.favourites == old(db.favourites)
    ensures email in db.users ==>
              r == Ok(true) && db.favourites == Disconnect(old(db.favourites), db.users[email].id, furnitureId)
  {
    if email !in db.users {
      return Err(Orm(RecordNotFound));
    }
    db.favourites := Disconnect(db.favourites, db.users[email].id, furnitureId);
    return Ok(true);
  }

  /** Adding a favourite twice is the same as adding it once. */
  lemma ConnectIdempotent(favourites: set<Favourite>, userId: int, furnitureId: int)
    ensures Connect(Connect(favourites, userId, furnitureId), userId, furnitureId) == Connect(favourites, userId, furnitureId)
  {
  }

  /** Removing a favourite that was just added, and was not there before, restores the join table. */
  lemma {:induction false} DisconnectUndoesConnect(favourites: set<Favourite>, userId: int, furnitureId: int)
    requires furnitureId !in FavouriteIds(favourites, userId)
    ensures Disconnect(Connect(favourites, userId, furnitureId), userId, furnitureId) == favourites
  {
    assert Favourite(userId, furnitureId) !in favourites;
  }
}
