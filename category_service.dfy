/** Categories: creating one, updating some of its columns, and deleting one,
    which is refused while the category still has subcategories or products. */
module CategoryService {
  import opened Records
  import opened Store

  /** A category with the ids of its subcategories and of its products. */
  datatype CategoryDetail = CategoryDetail(category: Category, subCategories: set<nat>, products: set<nat>)

  function SubCategories(db: Db, id: nat): set<nat> {
    set k | k in db.categories && db.categories[k].parentId == Some(id)
  }

  function ProductsIn(db: Db, id: nat): set<nat> {
    set k | k in db.products && db.products[k].categoryId == Some(id)
  }

  /** getCategoryById: the category with its subcategories and products, or nothing. */
  function GetCategoryById(db: Db, id: nat): (r: Option<CategoryDetail>)
    ensures r.None? <==> id !in db.categories
    ensures r.Some? ==>
      && r.value.category == db.categories[id]
      && (forall k :: k in r.value.subCategories <==> k in db.categories && db.categories[k].parentId == Some(id))
      && (forall k :: k in r.value.products <==> k in db.products && db.products[k].categoryId == Some(id))
  {
    if id !in db.categories then None
    else Some(CategoryDetail(db.categories[id], SubCategories(db, id), ProductsIn(db, id)))
  }

  /** The check deleteCategory makes before deleting: the category must exist
      and have neither subcategories nor products. */
  function DeleteGuard(db: Db, id: nat): (r: Option<Error>)
    ensures r == Some(CategoryNotFound) <==> id !in db.categories
    ensures r.None? <==>
      && id in db.categories
      && (forall k | k in db.categories :: db.categories[k].parentId != Some(id))
      && (forall k | k in db.products :: db.products[k].categoryId != Some(id))
    ensures r.Some? ==> r == Some(CategoryNotFound) || r == Some(CategoryInUse)
  {
    match GetCategoryById(db, id)
    case None => Some(CategoryNotFound)
    case Some(detail) =>
      if |detail.subCategories| > 0 || |detail.products| > 0 then Some(CategoryInUse) else None
  }

  /** deleteCategory on a snapshot: the guard's error, or the table without that row. */
  function DeleteCategoryStep(db: Db, id: nat): (out: (Result<()>, Db))
    ensures out.0.Failure? ==> out.1 == db
    ensures out.0.Success? ==> out.1 == db.(categories := db.categories - {id})
  {
    match DeleteGuard(db, id)
    case Some(e) => (Failure(e), db)
    case None => (Success(()), db.(categories := db.categories - {id}))
  }

  /** deleteCategory fails with not-found for a missing id and with in-use
      when some category names it as parent or some product belongs to it,
      leaving the table unchanged; otherwise exactly that category goes. */
  lemma DeleteCategoryOutcome(db: Db, id: nat)
    ensures var out := DeleteCategoryStep(db, id);
      && (id !in db.categories ==> out == (Failure(CategoryNotFound), db))
      && (id in db.categories &&
          ((exists k | k in db.categories :: db.categories[k].parentId == Some(id)) ||
           (exists k | k in db.products :: db.products[k].categoryId == Some(id))) ==>
            out == (Failure(CategoryInUse), db))
      && (out.0.Success? ==>
            && id in db.categories
            && out.1.categories.Keys == db.categories.Keys - {id}
            && |out.1.categories| == |db.categories| - 1
            && (forall k | k in out.1.categories :: out.1.categories[k] == db.categories[k]))
  {
  }

  /** The guard is what keeps the foreign keys intact: deleting under it
      leaves a consistent store. */
  lemma DeleteCategoryKeepsConsistent(db: Db, id: nat)
    requires Consistent(db)
    ensures Consistent(DeleteCategoryStep(db, id).1)
  {
  }

  /** Without the guard, removing a category that is still some category's
      parent would leave that child pointing at nothing. */
  lemma UnguardedDeleteBreaksConsistency(db: Db, id: nat, child: nat)
    requires child in db.categories && child != id && db.categories[child].parentId == Some(id)
    ensures !Consistent(db.(categories := db.categories - {id}))
  {
    var after := db.(categories := db.categories - {id});
    assert child in after.categories && after.categories[child].parentId.value !in after.categories;
  }

  /** createCategory on a snapshot: one new row under the next id, carrying the
      given data; a parent that does not exist is refused by the database. */
  function CreateCategoryStep(db: Db, input: CategoryInput): (out: (Result<Category>, Db))
    ensures out.0.Failure? <==> input.parentId.Some? && input.parentId.value !in db.categories
    ensures out.0.Failure? ==> out == (Failure(ConstraintViolation), db)
  {
    if input.parentId.Some? && input.parentId.value !in db.categories then (Failure(ConstraintViolation), db)
    else
      var category := Category(db.nextCategoryId, input.name, input.description, input.parentId);
      (Success(category), db.(categories := db.categories[category.id := category], nextCategoryId := category.id + 1))
  }

  /** A successful createCategory adds exactly one category, with the given
      name, description and parent, and changes no other. */
  lemma CreateCategoryAddsOne(db: Db, input: CategoryInput)
    requires Consistent(db)
    requires CreateCategoryStep(db, input).0.Success?
    ensures var out := CreateCategoryStep(db, input);
      var c := out.0.value;
      && c.id !in db.categories
      && c.name == input.name && c.description == input.description && c.parentId == input.parentId
      && out.1.categories.Keys == db.categories.Keys + {c.id}
      && |out.1.categories| == |db.categories| + 1
      && (forall k | k in db.categories :: out.1.categories[k] == db.categories[k])
      && out.1.(categories := db.categories, nextCategoryId := db.nextCategoryId) == db
  {
    var c := CreateCategoryStep(db, input).0.value;
    assert c.id !in db.categories;
    assert |db.categories.Keys + {c.id}| == |db.categories.Keys| + 1;
  }

  /** The category with the columns the patch names replaced. */
  function Patched(c: Category, patch: CategoryPatch): Category {
    c.(name := if patch.name.Some? then patch.name.value else c.name,
       description := if patch.description.Some? then patch.description.value else c.description,
       parentId := if patch.parentId.Some? then patch.parentId.value else c.parentId)
  }

  /** updateCategory on a snapshot: a missing row or a parent that does not
      exist is a database error; otherwise only that row changes. */
  function UpdateCategoryStep(db: Db, id: nat, patch: CategoryPatch): (out: (Result<Category>, Db))
    ensures out.0.Failure? ==> out.1 == db
    ensures id !in db.categories ==> out.0 == Failure(RecordNotFound)
    ensures out.0.Success? <==>
      && id in db.categories
      && (Patched(db.categories[id], patch).parentId.Some? ==>
            Patched(db.categories[id], patch).parentId.value in db.categories)
    ensures out.0.Failure? && id in db.categories ==> out.0 == Failure(ConstraintViolation)
  {
    if id !in db.categories then (Failure(RecordNotFound), db)
    else
      var updated := Patched(db.categories[id], patch);
      if updated.parentId.Some? && updated.parentId.value !in db.categories then (Failure(ConstraintViolation), db)
      else (Success(updated), db.(categories := db.categories[id := updated]))
  }

  /** A successful updateCategory changes only the category with the given
      id: the columns the patch names take the patch's values, the others and
      the id stay, and every other category is untouched. */
  lemma UpdateCategoryChangesOnlyThatOne(db: Db, id: nat, patch: CategoryPatch)
    requires UpdateCategoryStep(db, id, patch).0.Success?
    ensures var out := UpdateCategoryStep(db, id, patch);
      var c := out.0.value;
      && id in db.categories
      && c.id == db.categories[id].id
      && (patch.name.Some? ==> c.name == patch.name.value)
      && (patch.name.None? ==> c.name == db.categories[id].name)
      && (patch.description.Some? ==> c.description == patch.description.value)
      && (patch.description.None? ==> c.description == db.categories[id].description)
      && (patch.parentId.Some? ==> c.parentId == patch.parentId.value)
      && (patch.parentId.None? ==> c.parentId == db.categories[id].parentId)
      && out.1.categories.Keys == db.categories.Keys
      && out.1.categories[id] == c
      && (forall k | k in db.categories && k != id :: out.1.categories[k] == db.categories[k])
      && out.1.(categories := db.categories) == db
  {
  }

  lemma CreateCategoryKeepsConsistent(db: Db, input: CategoryInput)
    requires Consistent(db)
    ensures Consistent(CreateCategoryStep(db, input).1)
  {
  }

  lemma UpdateCategoryKeepsConsistent(db: Db, id: nat, patch: CategoryPatch)
    requires Consistent(db)
    ensures Consistent(UpdateCategoryStep(db, id, patch).1)
  {
  }

  method CreateCategory(store: Database, input: CategoryInput) returns (r: Result<Category>)
    requires store.Valid()
    modifies store
    ensures store.Valid()
    ensures (r, store.State()) == CreateCategoryStep(old(store.State()), input)
  {
    CreateCategoryKeepsConsistent(store.State(), input);
    if input.parentId.Some? && input.parentId.value !in store.categories {
      return Failure(ConstraintViolation);
    }
    var category := Category(store.nextCategoryId, input.name, input.description, input.parentId);
    store.categories := store.categories[category.id := category];
    store.nextCategoryId := category.id + 1;
    return Success(category);
  }

  method UpdateCategory(store: Database, id: nat, patch: CategoryPatch) returns (r: Result<Category>)
    requires store.Valid()
    modifies store
    ensures store.Valid()
    ensures (r, store.State()) == UpdateCategoryStep(old(store.State()), id, patch)
  {
    UpdateCategoryKeepsConsistent(store.State(), id, patch);
    if id !in store.categories {
      return Failure(RecordNotFound);
    }
    var updated := Patched(store.categories[id], patch);
    if updated.parentId.Some? && updated.parentId.value !in store.categories {
      return Failure(ConstraintViolation);
    }
    store.categories := store.categories[id := updated];
    return Success(updated);
  }

  method DeleteCategory(store: Database, id: nat) returns (r: Result<()>)
    requires store.Valid()
    modifies store
    ensures store.Valid()
    ensures (r, store.State()) == DeleteCategoryStep(old(store.State()), id)
  {
    DeleteCategoryKeepsConsistent(store.State(), id);
    var guard := DeleteGuard(store.State(), id);
    if guard.Some? {
      return Failure(guard.value);
    }
    store.categories := store.categories - {id};
    return Success(());
  }
}
