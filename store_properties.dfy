/** What the declared constraints promise about the store's writes: duplicates
    are refused without effect, saves derive the slug and are idempotent, and a
    cascading delete removes exactly the rows that reference what it deletes. */
module StoreProperties {
  import opened Rows
  import opened Ordering
  import opened UsersModels
  import opened RecipesModels
  import opened StoreSpec

  // ---------------------------------------------------------------------------
  // Unique constraints

  /** A second user with a taken email is refused and nothing changes. */
  lemma EmailTakenRefused(db: Db, u: User, other: Row<User>)
    requires other in db.users.rows && other.val.email == u.email
    ensures CreateUser(db, u) == Outcome(db, Err(UniqueViolation(UniqueEmail)))
  {
    assert EmailKey(other.val) in KeySet(db.users, EmailKey);
  }

  /** A user is stored exactly when email and username are both new; the new row
      comes last, under the next id, and no other table changes. */
  lemma CreateUserInserts(db: Db, u: User)
    ensures CreateUser(db, u).result.Ok? <==>
            (forall x :: x in db.users.rows ==> x.val.email != u.email && x.val.username != u.username)
    ensures CreateUser(db, u).result.Ok? ==>
              CreateUser(db, u).db == db.(users := Table(db.users.rows + [Row(db.users.nextId, u)], db.users.nextId + 1))
    ensures CreateUser(db, u).result.Err? ==> CreateUser(db, u).db == db
  {
    if exists x :: x in db.users.rows && x.val.email == u.email {
      var x :| x in db.users.rows && x.val.email == u.email;
      assert EmailKey(x.val) in KeySet(db.users, EmailKey);
    } else if exists x :: x in db.users.rows && x.val.username == u.username {
      var x :| x in db.users.rows && x.val.username == u.username;
      assert UsernameKey(x.val) in KeySet(db.users, UsernameKey);
    }
  }

  /** full_clean compares the normalised email: a user whose email normalises
      to a stored one is refused by validation, although the raw insert of the
      same user would be accepted when its email as given is new. */
  lemma NormalizedEmailTakenRefused(db: Db, word: char -> bool, normalizeEmail: string -> string,
                                    u: User, other: Row<User>)
    requires other in db.users.rows && other.val.email == normalizeEmail(u.email)
    ensures ValidatedCreateUser(db, word, normalizeEmail, u) == Outcome(db, Err(ValidationFailed))
    ensures (forall x :: x in db.users.rows ==> x.val.email != u.email && x.val.username != u.username) ==>
              CreateUser(db, u).result.Ok?
  {
    assert EmailKey(other.val) in KeySet(db.users, EmailKey);
    CreateUserInserts(db, u);
  }

  /** What a validated create stores is the cleaned user: the email
      normalised, every other field as given. */
  lemma ValidatedUserStored(db: Db, word: char -> bool, normalizeEmail: string -> string, u: User)
    requires ValidatedCreateUser(db, word, normalizeEmail, u).result.Ok?
    ensures var o := ValidatedCreateUser(db, word, normalizeEmail, u);
            o.db.users.rows == db.users.rows + [Row(db.users.nextId, u.(email := normalizeEmail(u.email)))]
    ensures ValidUser(u, word)
  {
  }

  /** A second subscription to the same author is refused and nothing changes. */
  lemma SubscriptionDuplicateRefused(db: Db, user: nat, author: nat, s: Row<Subscribtion>)
    requires s in db.subscriptions.rows && s.val == Subscribtion(user, author)
    ensures Subscribe(db, user, author) == Outcome(db, Err(UniqueViolation(UniqueSubscription)))
  {
    assert SubscriptionPair(s.val) in KeySet(db.subscriptions, SubscriptionPair);
  }

  /** No constraint forbids subscribing to oneself: a stored user who is not yet
      subscribed to themself can be. */
  lemma SelfSubscriptionAccepted(db: Db, u: nat)
    requires u in Ids(db.users)
    requires forall x :: x in db.subscriptions.rows ==> x.val != Subscribtion(u, u)
    ensures Subscribe(db, u, u).result == Ok(db.subscriptions.nextId)
    ensures Subscribe(db, u, u).db.subscriptions.rows ==
            db.subscriptions.rows + [Row(db.subscriptions.nextId, Subscribtion(u, u))]
  {
    assert (u, u) !in KeySet(db.subscriptions, SubscriptionPair);
  }

  /** A second favorite of the same recipe by the same user is refused and
      every table is left as it was. */
  lemma FavoriteDuplicateRefused(db: Db, user: nat, recipe: nat, f: Row<Favorites>)
    requires f in db.favorites.rows && f.val == Favorites(user, recipe)
    ensures AddFavorite(db, user, recipe) == Outcome(db, Err(UniqueViolation(UniqueFavorite)))
  {
    assert FavoritePair(f.val) in KeySet(db.favorites, FavoritePair);
  }

  /** The same for the shopping cart. */
  lemma CartDuplicateRefused(db: Db, user: nat, recipe: nat, c: Row<Cart>)
    requires c in db.carts.rows && c.val == Cart(user, recipe)
    ensures AddToCart(db, user, recipe) == Outcome(db, Err(UniqueViolation(UniqueCart)))
  {
    assert CartPair(c.val) in KeySet(db.carts, CartPair);
  }

  /** A favorite is stored exactly when the pair is new and both rows exist. */
  lemma AddFavoriteInserts(db: Db, user: nat, recipe: nat)
    ensures AddFavorite(db, user, recipe).result.Ok? <==>
            && (forall x :: x in db.favorites.rows ==> x.val != Favorites(user, recipe))
            && user in Ids(db.users) && recipe in Ids(db.recipes)
    ensures AddFavorite(db, user, recipe).result.Ok? ==>
              AddFavorite(db, user, recipe).db ==
              db.(favorites := Table(db.favorites.rows + [Row(db.favorites.nextId, Favorites(user, recipe))],
                                     db.favorites.nextId + 1))
  {
    if exists x :: x in db.favorites.rows && x.val == Favorites(user, recipe) {
      var x :| x in db.favorites.rows && x.val == Favorites(user, recipe);
      assert FavoritePair(x.val) in KeySet(db.favorites, FavoritePair);
    }
  }

  /** A cart row is stored exactly when the pair is new and both rows exist. */
  lemma AddToCartInserts(db: Db, user: nat, recipe: nat)
    ensures AddToCart(db, user, recipe).result.Ok? <==>
            && (forall x :: x in db.carts.rows ==> x.val != Cart(user, recipe))
            && user in Ids(db.users) && recipe in Ids(db.recipes)
    ensures AddToCart(db, user, recipe).result.Ok? ==>
              AddToCart(db, user, recipe).db ==
              db.(carts := Table(db.carts.rows + [Row(db.carts.nextId, Cart(user, recipe))],
                                 db.carts.nextId + 1))
  {
    if exists x :: x in db.carts.rows && x.val == Cart(user, recipe) {
      var x :| x in db.carts.rows && x.val == Cart(user, recipe);
      assert CartPair(x.val) in KeySet(db.carts, CartPair);
    }
  }

  /** In a valid store no two rows of Favorites, Cart or Subscribtion hold the
      same pair, and no two users the same email. */
  lemma NoDuplicatePairs(db: Db, slugify: string -> string)
    requires Valid(db, slugify)
    ensures forall i, j :: 0 <= i < j < |db.favorites.rows| ==>
              db.favorites.rows[i].val != db.favorites.rows[j].val
    ensures forall i, j :: 0 <= i < j < |db.carts.rows| ==>
              db.carts.rows[i].val != db.carts.rows[j].val
    ensures forall i, j :: 0 <= i < j < |db.subscriptions.rows| ==>
              db.subscriptions.rows[i].val != db.subscriptions.rows[j].val
    ensures forall i, j :: 0 <= i < j < |db.users.rows| ==>
              db.users.rows[i].val.email != db.users.rows[j].val.email
  {
    UniqueByPositions(db.favorites, FavoritePair);
    UniqueByPositions(db.carts, CartPair);
    UniqueByPositions(db.subscriptions, SubscriptionPair);
    UniqueByPositions(db.users, EmailKey);
  }

  /** Inserting a recipe whose name is taken is refused and nothing changes: a
      raw insert by the database's unique constraint (once its columns hold
      their values), a validated one by validate_unique before the database is
      reached. */
  lemma RecipeNameTakenRefused(db: Db, slugify: string -> string, v: Recipe, other: Row<Recipe>)
    requires other in db.recipes.rows && other.val.name == v.name
    requires InIntegerColumn(v.cookingTime)
    ensures SlugFits(slugify(v.name)) ==>
              CreateRecipe(db, slugify, v) == Outcome(db, Err(UniqueViolation(UniqueRecipeName)))
    ensures ValidatedCreateRecipe(db, slugify, v) == Outcome(db, Err(ValidationFailed))
  {
    assert RecipeName(other.val) in KeySet(db.recipes, RecipeName);
  }

  /** A validated create stores only a recipe that passes every validator: a
      name of 1 to 128 characters and 1 <= cooking_time <= 6000. */
  lemma ValidatedRecipeStored(db: Db, slugify: string -> string, v: Recipe)
    requires ValidatedCreateRecipe(db, slugify, v).result.Ok?
    ensures ValidatedCreateRecipe(db, slugify, v).db.recipes.rows ==
            db.recipes.rows + [Row(db.recipes.nextId, v.Saved(slugify))]
    ensures 1 <= v.cookingTime <= 6000 && 1 <= |v.name| <= 128
    ensures SlugFits(v.Saved(slugify).slug)
  {
  }

  /** Validators do not run on a raw save: a recipe with cooking_time 0 is
      stored when its name is new and its author exists. */
  lemma RawCreateSkipsValidators(db: Db, slugify: string -> string, v: Recipe)
    requires v.cookingTime == 0 && SlugFits(slugify(v.name))
    requires forall x :: x in db.recipes.rows ==> x.val.name != v.name
    requires v.author in Ids(db.users)
    ensures CreateRecipe(db, slugify, v).result == Ok(db.recipes.nextId)
    ensures ValidatedCreateRecipe(db, slugify, v) == Outcome(db, Err(ValidationFailed))
  {
  }

  /** A slug longer than its varchar(100) column is refused by the database on
      every insert and save of an existing row, validated or not, and nothing
      changes. */
  lemma LongSlugRefused(db: Db, slugify: string -> string, name: string,
                        i: Ingredient, t: Tag, r: Recipe, id: nat)
    requires !SlugFits(slugify(name))
    requires i.name == name && t.name == name && r.name == name
    ensures var e := Outcome(db, Err(ValueTooLong(IngredientTable)));
            && CreateIngredient(db, slugify, i) == e
            && (ValidIngredient(i) ==> ValidatedCreateIngredient(db, slugify, i) == e)
            && (id in Ids(db.ingredients) ==> SaveIngredient(db, slugify, Row(id, i)) == e)
    ensures var e := Outcome(db, Err(ValueTooLong(TagTable)));
            && CreateTag(db, slugify, t) == e
            && (ValidTag(t) ==> ValidatedCreateTag(db, slugify, t) == e)
            && (id in Ids(db.tags) ==> SaveTag(db, slugify, Row(id, t)) == e)
    ensures var e := Outcome(db, Err(ValueTooLong(RecipeTable)));
            && (InIntegerColumn(r.cookingTime) ==> CreateRecipe(db, slugify, r) == e)
            && (ValidRecipe(r) && name !in KeySet(db.recipes, RecipeName) && r.author in Ids(db.users) ==>
                  ValidatedCreateRecipe(db, slugify, r) == e)
            && (id in Ids(db.recipes) && InIntegerColumn(r.cookingTime) ==>
                  SaveRecipe(db, slugify, Row(id, r)) == e)
  {
  }

  /** A recipe name of 101 to 128 characters passes every validator, but when
      its slug keeps its length (as slugify does for a name of lower-case ASCII
      letters) the database refuses it: no such name can be stored. */
  lemma LongRecipeNameNeverStored(db: Db, slugify: string -> string, r: Recipe)
    requires SlugMaxLength < |r.name| <= RecipeNameMaxLength && |slugify(r.name)| == |r.name|
    ensures ValidRecipe(r) <==> |r.image| > 0 && |r.text| > 0 && 1 <= r.cookingTime <= 6000
    ensures CreateRecipe(db, slugify, r).db == db && ValidatedCreateRecipe(db, slugify, r).db == db
    ensures ValidRecipe(r) ==> ValidatedCreateRecipe(db, slugify, r).result.Err?
  {
  }

  /** A validated ingredient amount is between 1 and 10000. */
  lemma ValidatedAmountStored(db: Db, v: IngredientValue)
    requires ValidatedAddIngredientValue(db, v).result.Ok?
    ensures ValidatedAddIngredientValue(db, v).db.ingredientValues.rows ==
            db.ingredientValues.rows + [Row(db.ingredientValues.nextId, v)]
    ensures 1 <= v.amount <= 10000
  {
  }

  // ---------------------------------------------------------------------------
  // save derives the slug

  /** Saving a stored ingredient writes obj's name and unit with the slug of
      the name into its row; every other row and table is kept. */
  lemma SaveIngredientWrites(db: Db, slugify: string -> string, obj: Row<Ingredient>)
    requires Valid(db, slugify) && obj.id in Ids(db.ingredients) && SlugFits(slugify(obj.val.name))
    ensures SaveIngredient(db, slugify, obj).result == Ok(obj.id)
    ensures forall x :: x in SaveIngredient(db, slugify, obj).db.ingredients.rows <==>
              || (x in db.ingredients.rows && x.id != obj.id)
              || x == Row(obj.id, Ingredient(obj.val.name, slugify(obj.val.name), obj.val.measurementUnit))
    ensures SaveIngredient(db, slugify, obj).db == db.(ingredients := SaveIngredient(db, slugify, obj).db.ingredients)
  {
    ReplaceMembers(db.ingredients, obj.id, obj.val.Saved(slugify));
  }

  /** Saving a stored ingredient as it is changes nothing, and saving twice is
      saving once. */
  lemma SaveIngredientIdempotent(db: Db, slugify: string -> string, obj: Row<Ingredient>)
    requires Valid(db, slugify)
    ensures obj in db.ingredients.rows ==> SaveIngredient(db, slugify, obj).db == db
    ensures SaveIngredient(SaveIngredient(db, slugify, obj).db, slugify, obj) == SaveIngredient(db, slugify, obj)
  {
    var v := obj.val.Saved(slugify);
    if obj in db.ingredients.rows {
      assert v == obj.val;
      ReplaceSame(db.ingredients, obj.id, v);
    }
    if obj.id in Ids(db.ingredients) {
      ReplaceWellFormed(db.ingredients, obj.id, v);
      ReplaceTwice(db.ingredients, obj.id, v);
    }
  }

  /** Saving a stored tag writes obj's name and color with the slug of the name. */
  lemma SaveTagWrites(db: Db, slugify: string -> string, obj: Row<Tag>)
    requires Valid(db, slugify) && obj.id in Ids(db.tags) && SlugFits(slugify(obj.val.name))
    ensures SaveTag(db, slugify, obj).result == Ok(obj.id)
    ensures forall x :: x in SaveTag(db, slugify, obj).db.tags.rows <==>
              || (x in db.tags.rows && x.id != obj.id)
              || x == Row(obj.id, Tag(obj.val.name, slugify(obj.val.name), obj.val.color))
    ensures SaveTag(db, slugify, obj).db == db.(tags := SaveTag(db, slugify, obj).db.tags)
  {
    ReplaceMembers(db.tags, obj.id, obj.val.Saved(slugify));
  }

  lemma SaveTagIdempotent(db: Db, slugify: string -> string, obj: Row<Tag>)
    requires Valid(db, slugify)
    ensures obj in db.tags.rows ==> SaveTag(db, slugify, obj).db == db
    ensures SaveTag(SaveTag(db, slugify, obj).db, slugify, obj) == SaveTag(db, slugify, obj)
  {
    var v := obj.val.Saved(slugify);
    if obj in db.tags.rows {
      assert v == obj.val;
      ReplaceSame(db.tags, obj.id, v);
    }
    if obj.id in Ids(db.tags) {
      ReplaceWellFormed(db.tags, obj.id, v);
      ReplaceTwice(db.tags, obj.id, v);
    }
  }

  /** Saving a stored recipe under the rules of an insert writes obj's fields
      with the slug of its name; every other row and table is kept. */
  lemma SaveRecipeWrites(db: Db, slugify: string -> string, obj: Row<Recipe>)
    requires Valid(db, slugify) && obj.id in Ids(db.recipes)
    requires InIntegerColumn(obj.val.cookingTime) && obj.val.author in Ids(db.users)
    requires SlugFits(slugify(obj.val.name))
    requires forall x :: x in db.recipes.rows && x.id != obj.id ==> x.val.name != obj.val.name
    ensures SaveRecipe(db, slugify, obj).result == Ok(obj.id)
    ensures forall x :: x in SaveRecipe(db, slugify, obj).db.recipes.rows <==>
              || (x in db.recipes.rows && x.id != obj.id)
              || x == Row(obj.id, obj.val.(slug := slugify(obj.val.name)))
    ensures SaveRecipe(db, slugify, obj).db == db.(recipes := SaveRecipe(db, slugify, obj).db.recipes)
  {
    ReplaceMembers(db.recipes, obj.id, obj.val.Saved(slugify));
  }

  /** A stored recipe saved as it is passes every check and changes nothing. */
  lemma SaveStoredRecipeUnchanged(db: Db, slugify: string -> string, obj: Row<Recipe>)
    requires Valid(db, slugify) && obj in db.recipes.rows
    ensures SaveRecipe(db, slugify, obj) == Outcome(db, Ok(obj.id))
  {
    assert obj.val.Saved(slugify) == obj.val;
    ReplaceSame(db.recipes, obj.id, obj.val);
  }

  /** Saving a recipe twice has the effect and the result of saving it once. */
  lemma SaveRecipeIdempotent(db: Db, slugify: string -> string, obj: Row<Recipe>)
    requires WellFormed(db.recipes)
    ensures SaveRecipe(SaveRecipe(db, slugify, obj).db, slugify, obj) == SaveRecipe(db, slugify, obj)
  {
    if SaveRecipe(db, slugify, obj).result.Ok? {
      var v := obj.val.Saved(slugify);
      var t := Replace(db.recipes, obj.id, v);
      ReplaceWellFormed(db.recipes, obj.id, v);
      ReplaceMembers(db.recipes, obj.id, v);
      ReplaceTwice(db.recipes, obj.id, v);
      var d := db.(recipes := t);
      assert SaveRecipe(db, slugify, obj) == Outcome(d, Ok(obj.id));
      assert !NameTakenByOther(t, obj.id, obj.val.name) by {
        forall x | x in t.rows && x.id != obj.id
          ensures x.val.name != obj.val.name
        {
          assert x in db.recipes.rows;
        }
      }
      assert obj.id in Ids(d.recipes) && obj.val.author in Ids(d.users);
      assert SaveRecipe(d, slugify, obj) == Outcome(d.(recipes := Replace(t, obj.id, v)), Ok(obj.id));
    }
  }

  // ---------------------------------------------------------------------------
  // Cascading deletes

  /** Deleting a recipe leaves users, subscriptions, ingredients and tags as
      they were. */
  lemma DeleteRecipeKeepsOthers(db: Db, r: nat)
    ensures var c := DeleteRecipe(db, r);
      && c.users == db.users && c.subscriptions == db.subscriptions
      && c.ingredients == db.ingredients && c.tags == db.tags
  {
    var g := Gone({}, {r}, {}, {});
    KeepAllRows(db.users, IdNotIn(g.users));
    KeepAllRows(db.subscriptions, KeepSubscription(g));
    KeepAllRows(db.ingredients, IdNotIn(g.ingredients));
    KeepAllRows(db.tags, IdNotIn(g.tags));
  }

  /** Deleting a recipe removes the recipe and precisely the ingredient amounts,
      tag links, favorites and cart rows that reference it. */
  lemma DeleteRecipeExact(db: Db, r: nat)
    ensures var c := DeleteRecipe(db, r);
      && (forall x :: x in c.recipes.rows <==> x in db.recipes.rows && x.id != r)
      && (forall x :: x in c.ingredientValues.rows <==> x in db.ingredientValues.rows && x.val.recipe != r)
      && (forall x :: x in c.recipeTags.rows <==> x in db.recipeTags.rows && x.val.recipe != r)
      && (forall x :: x in c.favorites.rows <==> x in db.favorites.rows && x.val.recipe != r)
      && (forall x :: x in c.carts.rows <==> x in db.carts.rows && x.val.recipe != r)
  {
    DeleteRecipeRemovesContents(db, r);
    DeleteRecipeRemovesMarks(db, r);
  }

  lemma DeleteRecipeRemovesContents(db: Db, r: nat)
    ensures forall x :: x in DeleteRecipe(db, r).recipes.rows <==> x in db.recipes.rows && x.id != r
    ensures forall x :: x in DeleteRecipe(db, r).ingredientValues.rows <==>
                        x in db.ingredientValues.rows && x.val.recipe != r
    ensures forall x :: x in DeleteRecipe(db, r).recipeTags.rows <==>
                        x in db.recipeTags.rows && x.val.recipe != r
  {
  }

  lemma DeleteRecipeRemovesMarks(db: Db, r: nat)
    ensures forall x :: x in DeleteRecipe(db, r).favorites.rows <==> x in db.favorites.rows && x.val.recipe != r
    ensures forall x :: x in DeleteRecipe(db, r).carts.rows <==> x in db.carts.rows && x.val.recipe != r
  {
  }

  /** After deleting a recipe the store is still valid: no row references it. */
  lemma DeleteRecipeValid(db: Db, slugify: string -> string, r: nat)
    requires Valid(db, slugify)
    ensures Valid(DeleteRecipe(db, r), slugify)
    ensures r !in Ids(DeleteRecipe(db, r).recipes)
  {
    var g := Gone({}, {r}, {}, {});
    IdsKeepIdNotIn(db.recipes, g.recipes);
    CascadeValid(db, slugify, g);
  }

  /** Deleting an ingredient leaves every table but two as it was. */
  lemma DeleteIngredientKeepsOthers(db: Db, i: nat)
    ensures var c := DeleteIngredient(db, i);
      && c.users == db.users && c.subscriptions == db.subscriptions
      && c.tags == db.tags && c.recipes == db.recipes && c.recipeTags == db.recipeTags
      && c.favorites == db.favorites && c.carts == db.carts
  {
    var g := Gone({}, {}, {i}, {});
    KeepAllRows(db.users, IdNotIn(g.users));
    KeepAllRows(db.subscriptions, KeepSubscription(g));
    KeepAllRows(db.tags, IdNotIn(g.tags));
    KeepAllRows(db.recipes, IdNotIn(g.recipes));
    KeepAllRows(db.recipeTags, KeepRecipeTag(g));
    KeepAllRows(db.favorites, KeepFavorite(g));
    KeepAllRows(db.carts, KeepCartItem(g));
  }

  /** Deleting an ingredient removes it and precisely its amounts in recipes. */
  lemma DeleteIngredientExact(db: Db, i: nat)
    ensures forall x :: x in DeleteIngredient(db, i).ingredients.rows <==> x in db.ingredients.rows && x.id != i
    ensures forall x :: x in DeleteIngredient(db, i).ingredientValues.rows <==>
                        x in db.ingredientValues.rows && x.val.ingredient != i
  {
  }

  lemma DeleteIngredientValid(db: Db, slugify: string -> string, i: nat)
    requires Valid(db, slugify)
    ensures Valid(DeleteIngredient(db, i), slugify)
    ensures i !in Ids(DeleteIngredient(db, i).ingredients)
  {
    var g := Gone({}, {}, {i}, {});
    IdsKeepIdNotIn(db.ingredients, g.ingredients);
    CascadeValid(db, slugify, g);
  }

  /** Deleting a tag leaves every table but two as it was. */
  lemma DeleteTagKeepsOthers(db: Db, t: nat)
    ensures var c := DeleteTag(db, t);
      && c.users == db.users && c.subscriptions == db.subscriptions
      && c.ingredients == db.ingredients && c.recipes == db.recipes
      && c.ingredientValues == db.ingredientValues
      && c.favorites == db.favorites && c.carts == db.carts
  {
    var g := Gone({}, {}, {}, {t});
    KeepAllRows(db.users, IdNotIn(g.users));
    KeepAllRows(db.subscriptions, KeepSubscription(g));
    KeepAllRows(db.ingredients, IdNotIn(g.ingredients));
    KeepAllRows(db.recipes, IdNotIn(g.recipes));
    KeepAllRows(db.ingredientValues, KeepIngredientValue(g));
    KeepAllRows(db.favorites, KeepFavorite(g));
    KeepAllRows(db.carts, KeepCartItem(g));
  }

  /** Deleting a tag removes it and precisely its links to recipes. */
  lemma DeleteTagExact(db: Db, t: nat)
    ensures forall x :: x in DeleteTag(db, t).tags.rows <==> x in db.tags.rows && x.id != t
    ensures forall x :: x in DeleteTag(db, t).recipeTags.rows <==> x in db.recipeTags.rows && x.val.tag != t
  {
  }

  lemma DeleteTagValid(db: Db, slugify: string -> string, t: nat)
    requires Valid(db, slugify)
    ensures Valid(DeleteTag(db, t), slugify)
    ensures t !in Ids(DeleteTag(db, t).tags)
  {
    var g := Gone({}, {}, {}, {t});
    IdsKeepIdNotIn(db.tags, g.tags);
    CascadeValid(db, slugify, g);
  }

  /** In a valid store, a recipe row is among the user's recipes exactly when
      the user is its author. */
  lemma AuthoredByExact(db: Db, u: nat)
    requires WellFormed(db.recipes)
    ensures forall x :: x in db.recipes.rows ==> (x.id in AuthoredBy(db, u) <==> x.val.author == u)
  {
    forall x | x in db.recipes.rows && x.id in AuthoredBy(db, u)
      ensures x.val.author == u
    {
      var y :| y in db.recipes.rows && y.val.author == u && y.id == x.id;
      IdsAreKeys(db.recipes, x, y);
    }
  }

  /** Deleting a user leaves ingredients and tags as they were. */
  lemma DeleteUserKeepsCatalog(db: Db, u: nat)
    ensures DeleteUser(db, u).ingredients == db.ingredients && DeleteUser(db, u).tags == db.tags
  {
    var g := DeleteUserGone(db, u);
    KeepAllRows(db.ingredients, IdNotIn(g.ingredients));
    KeepAllRows(db.tags, IdNotIn(g.tags));
  }

  /** Deleting a user removes the user and every subscription in which the user
      is the subscriber or the author. */
  lemma DeleteUserExact(db: Db, u: nat)
    ensures forall x :: x in DeleteUser(db, u).users.rows <==> x in db.users.rows && x.id != u
    ensures forall x :: x in DeleteUser(db, u).subscriptions.rows <==>
                        x in db.subscriptions.rows && x.val.user != u && x.val.author != u
  {
  }

  /** The recipes a user's deletion removes are the user's own. */
  lemma DeleteUserRecipes(db: Db, u: nat)
    requires WellFormed(db.recipes)
    ensures forall x :: x in DeleteUser(db, u).recipes.rows <==> x in db.recipes.rows && x.val.author != u
  {
    AuthoredByExact(db, u);
  }

  /** Deleting a user also removes the user's favorites and cart rows and every
      row that references one of the user's recipes, and nothing else. */
  lemma DeleteUserLinks(db: Db, u: nat)
    ensures var c := DeleteUser(db, u); var mine := AuthoredBy(db, u);
      && (forall x :: x in c.favorites.rows <==>
            x in db.favorites.rows && x.val.user != u && x.val.recipe !in mine)
      && (forall x :: x in c.carts.rows <==>
            x in db.carts.rows && x.val.user != u && x.val.recipe !in mine)
      && (forall x :: x in c.ingredientValues.rows <==>
            x in db.ingredientValues.rows && x.val.recipe !in mine)
      && (forall x :: x in c.recipeTags.rows <==> x in db.recipeTags.rows && x.val.recipe !in mine)
  {
  }

  lemma DeleteUserValid(db: Db, slugify: string -> string, u: nat)
    requires Valid(db, slugify)
    ensures Valid(DeleteUser(db, u), slugify)
    ensures u !in Ids(DeleteUser(db, u).users)
  {
    var g := DeleteUserGone(db, u);
    IdsKeepIdNotIn(db.users, g.users);
    CascadeValid(db, slugify, g);
  }

  /** Deleting a recipe that is not stored changes nothing: no row can
      reference it. */
  lemma DeleteMissingRecipeUnchanged(db: Db, id: nat)
    requires ForeignKeys(db) && id !in Ids(db.recipes)
    ensures DeleteRecipe(db, id) == db
  {
    var g := Gone({}, {id}, {}, {});
    DeleteRecipeKeepsOthers(db, id);
    KeepAllRows(db.recipes, IdNotIn(g.recipes));
    KeepAllRows(db.recipeTags, KeepRecipeTag(g));
    KeepAllRows(db.ingredientValues, KeepIngredientValue(g));
    KeepAllRows(db.favorites, KeepFavorite(g));
    KeepAllRows(db.carts, KeepCartItem(g));
  }

  /** Deleting a user who is not stored changes nothing: the user has no
      recipes and no row references the user. */
  lemma DeleteMissingUserUnchanged(db: Db, id: nat)
    requires ForeignKeys(db) && id !in Ids(db.users)
    ensures DeleteUser(db, id) == db
  {
    var g := DeleteUserGone(db, id);
    assert g.recipes == {};
    KeepAllRows(db.users, IdNotIn(g.users));
    KeepAllRows(db.subscriptions, KeepSubscription(g));
    KeepAllRows(db.ingredients, IdNotIn(g.ingredients));
    KeepAllRows(db.tags, IdNotIn(g.tags));
    KeepAllRows(db.recipes, IdNotIn(g.recipes));
    KeepAllRows(db.recipeTags, KeepRecipeTag(g));
    KeepAllRows(db.ingredientValues, KeepIngredientValue(g));
    KeepAllRows(db.favorites, KeepFavorite(g));
    KeepAllRows(db.carts, KeepCartItem(g));
  }

  // ---------------------------------------------------------------------------
  // Ordering

  /** Ids only grow, so the users' ascending-id listing is the table itself. */
  lemma UsersListedInInsertionOrder(db: Db, slugify: string -> string)
    requires Valid(db, slugify)
    ensures ListUsers(db) == db.users.rows
  {
    var key := (x: Row<User>) => x.id;
    assert SortedBy(db.users.rows, key);
    SortBySorted(db.users.rows, key);
  }
}
