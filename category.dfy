/**
 * The category table: keyed lookups that fail with NotFound, creation of
 * an empty category, renaming (which also regenerates the slug), and
 * deletion.
 */
module Categories {
  import opened Common
  import opened Query
  import opened Store

  /** The body of an update request. */
  datatype CategoryDto = CategoryDto(name: string)

  /** The table after an update of the row with `id`: only that row changes, to the new name and slug. */
  function Renamed(cs: seq<Category>, id: int, name: string, slug: string): (r: seq<Category>)
    ensures |r| == |cs|
    ensures forall i :: 0 <= i < |cs| ==>
      r[i] == if cs[i].id == id then Category(cs[i].id, name, slug) else cs[i]
  {
    UpdateWhere(cs, (c: Category) => c.id == id, (c: Category) => c.(name := name, slug := slug))
  }

  /** The table after a delete: exactly the rows with `id` are gone. */
  function Removed(cs: seq<Category>, id: int): (r: seq<Category>)
    ensures forall c :: c in r <==> c in cs && c.id != id
  {
    Where(cs, (c: Category) => c.id != id)
  }

  /** Some row other than the one with `id` already has `slug`. */
  predicate SlugTaken(cs: seq<Category>, id: int, slug: string) {
    FindFirst(cs, (c: Category) => c.slug == slug && c.id != id).Some?
  }

  lemma SlugTakenIff(cs: seq<Category>, id: int, slug: string)
    ensures SlugTaken(cs, id, slug) <==> exists c :: c in cs && c.slug == slug && c.id != id
  {
    var found := FindFirst(cs, (c: Category) => c.slug == slug && c.id != id);
    if !SlugTaken(cs, id, slug) {
      forall c | c in cs ensures !(c.slug == slug && c.id != id) {
        assert ((c: Category) => c.slug == slug && c.id != id)(c) == false;
      }
    }
  }

  class CategoryService {
    const db: Database
    const generateSlug: string -> string

    constructor (db: Database, generateSlug: string -> string)
      ensures this.db == db && this.generateSlug == generateSlug
    {
      this.db := db;
      this.generateSlug := generateSlug;
    }

    /** Every category, in table order; an empty table is an empty answer. */
    method GetAll() returns (r: seq<Category>)
      ensures r == db.categories
    {
      r := db.categories;
    }

    method ById(id: int) returns (r: Result<Category>)
      requires db.Valid()
      ensures r.Ok? ==> r.value in db.categories && r.value.id == id
      ensures r.Ok? ==> forall c :: c in db.categories && c.id == id ==> c == r.value
      ensures r.Err? ==> r.error == NotFound && forall c :: c in db.categories ==> c.id != id
    {
      var found := FindFirst(db.categories, (c: Category) => c.id == id);
      if found.None? {
        r := Err(NotFound);
      } else {
        r := Ok(found.value);
        forall c | c in db.categories && c.id == id ensures c == r.value {
          UniqueRow(db.categories, CategoryKey, c, r.value);
        }
      }
    }

    method BySlug(slug: string) returns (r: Result<Category>)
      requires db.Valid()
      ensures r.Ok? ==> r.value in db.categories && r.value.slug == slug
      ensures r.Ok? ==> forall c :: c in db.categories && c.slug == slug ==> c == r.value
      ensures r.Err? ==> r.error == NotFound && forall c :: c in db.categories ==> c.slug != slug
    {
      var found := FindFirst(db.categories, (c: Category) => c.slug == slug);
      if found.None? {
        r := Err(NotFound);
      } else {
        r := Ok(found.value);
        forall c | c in db.categories && c.slug == slug ensures c == r.value {
          UniqueRow(db.categories, CategorySlug, c, r.value);
        }
      }
    }

    /**
     * Inserts a category with an empty name and slug under the next id. The
     * slug column is unique, so this fails while another category still
     * has the empty slug.
     */
    method Create() returns (r: Result<Category>)
      requires db.Valid()
      modifies db
      ensures db.Valid()
      ensures r.Ok? <==> forall c :: c in old(db.categories) ==> c.slug != ""
      ensures r.Ok? ==> r.value == Category(old(db.nextCategoryId), "", "")
      ensures r.Ok? ==> db.categories == old(db.categories) + [r.value]
      ensures r.Ok? ==> db.nextCategoryId == old(db.nextCategoryId) + 1
      ensures r.Err? ==> r.error == Conflict
      ensures r.Err? ==> db.categories == old(db.categories) && db.nextCategoryId == old(db.nextCategoryId)
      ensures db.products == old(db.products) && db.nextProductId == old(db.nextProductId)
      ensures db.orders == old(db.orders) && db.nextOrderId == old(db.nextOrderId)
    {
      var clash := FindFirst(db.categories, (c: Category) => c.slug == "");
      if clash.Some? {
        r := Err(Conflict);
        return;
      }
      var category := Category(db.nextCategoryId, "", "");
      AppendKeyed(db.categories, CategoryKey, db.nextCategoryId, category);
      AppendUnique(db.categories, CategorySlug, category);
      db.categories := db.categories + [category];
      db.nextCategoryId := db.nextCategoryId + 1;
      r := Ok(category);
    }

    /**
     * Sets the name to `dto.name` and the slug to `generateSlug(dto.name)`
     * of the category with `id`; fails with NotFound when there is none and
     * with Conflict when another category already has that slug.
     */
    method Update(id: int, dto: CategoryDto) returns (r: Result<Category>)
      requires db.Valid()
      modifies db
      ensures db.Valid()
      ensures var slug := generateSlug(dto.name);
        && (r == Err(NotFound) <==> forall c :: c in old(db.categories) ==> c.id != id)
        && ((exists c :: c in old(db.categories) && c.id == id) ==>
              (r.Err? <==> SlugTaken(old(db.categories), id, slug)) && (r.Err? ==> r.error == Conflict))
        && (r.Ok? ==> r.value == Category(id, dto.name, slug))
        && (r.Ok? ==> db.categories == Renamed(old(db.categories), id, dto.name, slug))
      ensures r.Err? ==> r.error in {NotFound, Conflict} && db.categories == old(db.categories)
      ensures db.nextCategoryId == old(db.nextCategoryId)
      ensures db.products == old(db.products) && db.nextProductId == old(db.nextProductId)
      ensures db.orders == old(db.orders) && db.nextOrderId == old(db.nextOrderId)
    {
      var target := FindFirst(db.categories, (c: Category) => c.id == id);
      if target.None? {
        r := Err(NotFound);
        return;
      }
      var slug := generateSlug(dto.name);
      if SlugTaken(db.categories, id, slug) {
        r := Err(Conflict);
        return;
      }
      SlugTakenIff(db.categories, id, slug);
      var cs := db.categories;
      var updated := Renamed(cs, id, dto.name, slug);
      assert Keyed(updated, CategoryKey, db.nextCategoryId) by {
        forall i | 0 <= i < |updated| ensures CategoryKey(updated[i]) == CategoryKey(cs[i]) {
        }
      }
      UpdateOneUnique(cs, (c: Category) => c.id == id, (c: Category) => c.(name := dto.name, slug := slug), CategorySlug)
        by {
          forall i, j | 0 <= i < j < |cs| ensures !(cs[i].id == id && cs[j].id == id) {
            assert CategoryKey(cs[i]) != CategoryKey(cs[j]);
          }
          forall i, j | 0 <= i < |cs| && 0 <= j < |cs| && cs[i].id == id && cs[j].id != id
            ensures slug != cs[j].slug
          {
            assert cs[j] in cs;
          }
        }
      db.categories := updated;
      r := Ok(Category(target.value.id, dto.name, slug));
    }

    /** Deletes the category with `id` and returns it, or fails with NotFound. */
    method Delete(id: int) returns (r: Result<Category>)
      requires db.Valid()
      modifies db
      ensures db.Valid()
      ensures r.Ok? ==> r.value in old(db.categories) && r.value.id == id
      ensures r.Ok? ==> db.categories == Removed(old(db.categories), id)
      ensures r.Err? <==> forall c :: c in old(db.categories) ==> c.id != id
      ensures r.Err? ==> r.error == NotFound && db.categories == old(db.categories)
      ensures db.nextCategoryId == old(db.nextCategoryId)
      ensures db.products == old(db.products) && db.nextProductId == old(db.nextProductId)
      ensures db.orders == old(db.orders) && db.nextOrderId == old(db.nextOrderId)
    {
      var target := FindFirst(db.categories, (c: Category) => c.id == id);
      if target.None? {
        r := Err(NotFound);
        return;
      }
      WhereKeyed(db.categories, (c: Category) => c.id != id, CategoryKey, db.nextCategoryId);
      WhereUnique(db.categories, (c: Category) => c.id != id, CategorySlug);
      db.categories := Removed(db.categories, id);
      r := Ok(target.value);
    }
  }
}
