/** The database as the running program sees it: one object whose tables the
    model managers update in place. Every write keeps the store invariant and
    leaves the tables exactly as the matching function of StoreSpec says, so
    every property proved of those functions holds of the object. */
module Store {
  import opened Rows
  import opened UsersModels
  import opened RecipesModels
  import opened StoreSpec

  /** DELETE ... WHERE NOT keep, one row at a time: the rows of `rows` that
      `keep` retains, in table order. */
  method FilterRows<T(==,!new)>(rows: seq<T>, keep: T -> bool) returns (kept: seq<T>)
    ensures kept == Filter(rows, keep)
  {
    kept := [];
    var i := 0;
    while i < |rows|
      invariant 0 <= i <= |rows|
      invariant kept == Filter(rows[..i], keep)
    {
      assert rows[..i + 1][..i] == rows[..i];
      if keep(rows[i]) {
        kept := kept + [rows[i]];
      }
      i := i + 1;
    }
    assert rows[..i] == rows;
  }

  /** The table after DELETE ... WHERE NOT keep; the id sequence is left as it
      was. */
  method KeepRows<T(==,!new)>(t: Table<T>, keep: Row<T> -> bool) returns (r: Table<T>)
    ensures r == Keep(t, keep)
  {
    var kept := FilterRows(t.rows, keep);
    r := Table(kept, t.nextId);
  }

  /** The tables left by a cascading delete of the rows in `g`, computed table
      by table. */
  method CascadeTables(db: Db, g: Gone) returns (next: Db)
    ensures next == Cascade(db, g)
  {
    var users := KeepRows(db.users, IdNotIn(g.users));
    var subscriptions := KeepRows(db.subscriptions, KeepSubscription(g));
    var ingredients := KeepRows(db.ingredients, IdNotIn(g.ingredients));
    var tags := KeepRows(db.tags, IdNotIn(g.tags));
    var recipes := KeepRows(db.recipes, IdNotIn(g.recipes));
    var recipeTags := KeepRows(db.recipeTags, KeepRecipeTag(g));
    var ingredientValues := KeepRows(db.ingredientValues, KeepIngredientValue(g));
    var favorites := KeepRows(db.favorites, KeepFavorite(g));
    var carts := KeepRows(db.carts, KeepCartItem(g));
    next := Db(users, subscriptions, ingredients, tags, recipes, recipeTags, ingredientValues, favorites, carts);
  }

  class Database {
    /** django.utils.text.slugify, which Ingredient, Tag and Recipe call in
        `save`. */
    const slugify: string -> string
    /** Python's `\w`, which the name validator uses. */
    const wordChar: char -> bool
    /** normalize_email after normalize_username, which User.clean applies. */
    const normalizeEmail: string -> string

    var users: Table<User>
    var subscriptions: Table<Subscribtion>
    var ingredients: Table<Ingredient>
    var tags: Table<Tag>
    var recipes: Table<Recipe>
    var recipeTags: Table<RecipeTag>
    var ingredientValues: Table<IngredientValue>
    var favorites: Table<Favorites>
    var carts: Table<Cart>

    /** The tables as one value. */
    function State(): Db
      reads this
    {
      Db(users, subscriptions, ingredients, tags, recipes, recipeTags, ingredientValues, favorites, carts)
    }

    ghost predicate Valid()
      reads this
    {
      StoreSpec.Valid(State(), slugify) && WordClass(wordChar)
    }

    /** A freshly migrated database. */
    constructor (slugify: string -> string, wordChar: char -> bool, normalizeEmail: string -> string)
      requires WordClass(wordChar)
      ensures Valid() && State() == EmptyDb()
      ensures this.slugify == slugify && this.wordChar == wordChar && this.normalizeEmail == normalizeEmail
    {
      var e := EmptyDb();
      EmptyDbValid(slugify);
      this.slugify := slugify;
      this.wordChar := wordChar;
      this.normalizeEmail := normalizeEmail;
      users, subscriptions, ingredients, tags, recipes := e.users, e.subscriptions, e.ingredients, e.tags, e.recipes;
      recipeTags, ingredientValues, favorites, carts := e.recipeTags, e.ingredientValues, e.favorites, e.carts;
      new;
      assert State() == e;
    }

    // -------------------------------------------------------------------------
    // users

    method CreateUser(u: User) returns (r: Result<nat>)
      requires Valid()
      modifies this
      ensures Valid()
      ensures Outcome(State(), r) == StoreSpec.CreateUser(old(State()), u)
    {
      ghost var db := State();
      if u.email in KeySet(users, EmailKey) {
        r := Err(UniqueViolation(UniqueEmail));
      } else if u.username in KeySet(users, UsernameKey) {
        r := Err(UniqueViolation(UniqueUsername));
      } else {
        r := Ok(users.nextId);
        users := Append(users, u);
      }
      assert Outcome(State(), r) == StoreSpec.CreateUser(db, u);
      CreateUserValid(db, slugify, u);
    }

    method ValidatedCreateUser(u: User) returns (r: Result<nat>)
      requires Valid()
      modifies this
      ensures Valid()
      ensures Outcome(State(), r) == StoreSpec.ValidatedCreateUser(old(State()), wordChar, normalizeEmail, u)
    {
      var c := Cleaned(u, normalizeEmail);
      if !ValidUser(u, wordChar) || c.email in KeySet(users, EmailKey)
         || c.username in KeySet(users, UsernameKey) {
        return Err(ValidationFailed);
      }
      r := CreateUser(c);
    }

    method Subscribe(user: nat, author: nat) returns (r: Result<nat>)
      requires Valid()
      modifies this
      ensures Valid()
      ensures Outcome(State(), r) == StoreSpec.Subscribe(old(State()), user, author)
    {
      ghost var db := State();
      if (user, author) in KeySet(subscriptions, SubscriptionPair) {
        r := Err(UniqueViolation(UniqueSubscription));
      } else if user !in Ids(users) || author !in Ids(users) {
        r := Err(ForeignKeyViolation(UserTable));
      } else {
        r := Ok(subscriptions.nextId);
        subscriptions := Append(subscriptions, Subscribtion(user, author));
      }
      assert Outcome(State(), r) == StoreSpec.Subscribe(db, user, author);
      SubscribeValid(db, slugify, user, author);
    }

    // -------------------------------------------------------------------------
    // ingredients and tags

    method CreateIngredient(v: Ingredient) returns (r: Result<nat>)
      requires Valid()
      modifies this
      ensures Valid()
      ensures Outcome(State(), r) == StoreSpec.CreateIngredient(old(State()), slugify, v)
    {
      ghost var db := State();
      if !SlugFits(slugify(v.name)) {
        return Err(ValueTooLong(IngredientTable));
      }
      r := Ok(ingredients.nextId);
      ingredients := Append(ingredients, v.Saved(slugify));
      assert Outcome(State(), r) == StoreSpec.CreateIngredient(db, slugify, v);
      CreateIngredientValid(db, slugify, v);
    }

    method ValidatedCreateIngredient(v: Ingredient) returns (r: Result<nat>)
      requires Valid()
      modifies this
      ensures Valid()
      ensures Outcome(State(), r) == StoreSpec.ValidatedCreateIngredient(old(State()), slugify, v)
    {
      if !ValidIngredient(v) {
        return Err(ValidationFailed);
      }
      r := CreateIngredient(v);
    }

    method SaveIngredient(obj: Row<Ingredient>) returns (r: Result<nat>)
      requires Valid()
      modifies this
      ensures Valid()
      ensures Outcome(State(), r) == StoreSpec.SaveIngredient(old(State()), slugify, obj)
    {
      ghost var db := State();
      if obj.id !in Ids(ingredients) {
        r := Err(NotFound(IngredientTable));
      } else if !SlugFits(slugify(obj.val.name)) {
        r := Err(ValueTooLong(IngredientTable));
      } else {
        ingredients := Replace(ingredients, obj.id, obj.val.Saved(slugify));
        r := Ok(obj.id);
      }
      assert Outcome(State(), r) == StoreSpec.SaveIngredient(db, slugify, obj);
      SaveIngredientValid(db, slugify, obj);
    }

    method CreateTag(v: Tag) returns (r: Result<nat>)
      requires Valid()
      modifies this
      ensures Valid()
      ensures Outcome(State(), r) == StoreSpec.CreateTag(old(State()), slugify, v)
    {
      ghost var db := State();
      if !SlugFits(slugify(v.name)) {
        return Err(ValueTooLong(TagTable));
      }
      r := Ok(tags.nextId);
      tags := Append(tags, v.Saved(slugify));
      assert Outcome(State(), r) == StoreSpec.CreateTag(db, slugify, v);
      CreateTagValid(db, slugify, v);
    }

    method ValidatedCreateTag(v: Tag) returns (r: Result<nat>)
      requires Valid()
      modifies this
      ensures Valid()
      ensures Outcome(State(), r) == StoreSpec.ValidatedCreateTag(old(State()), slugify, v)
    {
      if !ValidTag(v) {
        return Err(ValidationFailed);
      }
      r := CreateTag(v);
    }

    method SaveTag(obj: Row<Tag>) returns (r: Result<nat>)
      requires Valid()
      modifies this
      ensures Valid()
      ensures Outcome(State(), r) == StoreSpec.SaveTag(old(State()), slugify, obj)
    {
      ghost var db := State();
      if obj.id !in Ids(tags) {
        r := Err(NotFound(TagTable));
      } else if !SlugFits(slugify(obj.val.name)) {
        r := Err(ValueTooLong(TagTable));
      } else {
        tags := Replace(tags, obj.id, obj.val.Saved(slugify));
        r := Ok(obj.id);
      }
      assert Outcome(State(), r) == StoreSpec.SaveTag(db, slugify, obj);
      SaveTagValid(db, slugify, obj);
    }

    // -------------------------------------------------------------------------
    // recipes

    method CreateRecipe(v: Recipe) returns (r: Result<nat>)
      requires Valid()
      modifies this
      ensures Valid()
      ensures Outcome(State(), r) == StoreSpec.CreateRecipe(old(State()), slugify, v)
    {
      ghost var db := State();
      if !InIntegerColumn(v.cookingTime) {
        r := Err(IntegerOutOfRange);
      } else if !SlugFits(slugify(v.name)) {
        r := Err(ValueTooLong(RecipeTable));
      } else if v.name in KeySet(recipes, RecipeName) {
        r := Err(UniqueViolation(UniqueRecipeName));
      } else if v.author !in Ids(users) {
        r := Err(ForeignKeyViolation(UserTable));
      } else {
        r := Ok(recipes.nextId);
        recipes := Append(recipes, v.Saved(slugify));
      }
      assert Outcome(State(), r) == StoreSpec.CreateRecipe(db, slugify, v);
      CreateRecipeValid(db, slugify, v);
    }

    method ValidatedCreateRecipe(v: Recipe) returns (r: Result<nat>)
      requires Valid()
      modifies this
      ensures Valid()
      ensures Outcome(State(), r) == StoreSpec.ValidatedCreateRecipe(old(State()), slugify, v)
    {
      if !ValidRecipe(v) || v.name in KeySet(recipes, RecipeName) || v.author !in Ids(users) {
        return Err(ValidationFailed);
      }
      r := CreateRecipe(v);
    }

    method SaveRecipe(obj: Row<Recipe>) returns (r: Result<nat>)
      requires Valid()
      modifies this
      ensures Valid()
      ensures Outcome(State(), r) == StoreSpec.SaveRecipe(old(State()), slugify, obj)
    {
      ghost var db := State();
      if obj.id !in Ids(recipes) {
        r := Err(NotFound(RecipeTable));
      } else if !InIntegerColumn(obj.val.cookingTime) {
        r := Err(IntegerOutOfRange);
      } else if !SlugFits(slugify(obj.val.name)) {
        r := Err(ValueTooLong(RecipeTable));
      } else if NameTakenByOther(recipes, obj.id, obj.val.name) {
        r := Err(UniqueViolation(UniqueRecipeName));
      } else if obj.val.author !in Ids(users) {
        r := Err(ForeignKeyViolation(UserTable));
      } else {
        recipes := Replace(recipes, obj.id, obj.val.Saved(slugify));
        r := Ok(obj.id);
      }
      assert Outcome(State(), r) == StoreSpec.SaveRecipe(db, slugify, obj);
      SaveRecipeValid(db, slugify, obj);
    }

    // -------------------------------------------------------------------------
    // rows that link recipes to tags, ingredients, favorites and carts

    method AddRecipeTag(recipe: nat, tag: nat) returns (r: Result<nat>)
      requires Valid()
      modifies this
      ensures Valid()
      ensures Outcome(State(), r) == StoreSpec.AddRecipeTag(old(State()), recipe, tag)
    {
      ghost var db := State();
      if (recipe, tag) in KeySet(recipeTags, RecipeTagPair) {
        r := Err(UniqueViolation(UniqueRecipeTag));
      } else if recipe !in Ids(recipes) {
        r := Err(ForeignKeyViolation(RecipeTable));
      } else if tag !in Ids(tags) {
        r := Err(ForeignKeyViolation(TagTable));
      } else {
        r := Ok(recipeTags.nextId);
        recipeTags := Append(recipeTags, RecipeTag(recipe, tag));
      }
      assert Outcome(State(), r) == StoreSpec.AddRecipeTag(db, recipe, tag);
      AddRecipeTagValid(db, slugify, recipe, tag);
    }

    method AddIngredientValue(v: IngredientValue) returns (r: Result<nat>)
      requires Valid()
      modifies this
      ensures Valid()
      ensures Outcome(State(), r) == StoreSpec.AddIngredientValue(old(State()), v)
    {
      ghost var db := State();
      if !InIntegerColumn(v.amount) {
        r := Err(IntegerOutOfRange);
      } else if v.ingredient !in Ids(ingredients) {
        r := Err(ForeignKeyViolation(IngredientTable));
      } else if v.recipe !in Ids(recipes) {
        r := Err(ForeignKeyViolation(RecipeTable));
      } else {
        r := Ok(ingredientValues.nextId);
        ingredientValues := Append(ingredientValues, v);
      }
      assert Outcome(State(), r) == StoreSpec.AddIngredientValue(db, v);
      AddIngredientValueValid(db, slugify, v);
    }

    method ValidatedAddIngredientValue(v: IngredientValue) returns (r: Result<nat>)
      requires Valid()
      modifies this
      ensures Valid()
      ensures Outcome(State(), r) == StoreSpec.ValidatedAddIngredientValue(old(State()), v)
    {
      if !ValidIngredientValue(v) || v.ingredient !in Ids(ingredients) || v.recipe !in Ids(recipes) {
        return Err(ValidationFailed);
      }
      r := AddIngredientValue(v);
    }

    method AddFavorite(user: nat, recipe: nat) returns (r: Result<nat>)
      requires Valid()
      modifies this
      ensures Valid()
      ensures Outcome(State(), r) == StoreSpec.AddFavorite(old(State()), user, recipe)
    {
      ghost var db := State();
      if (user, recipe) in KeySet(favorites, FavoritePair) {
        r := Err(UniqueViolation(UniqueFavorite));
      } else if user !in Ids(users) {
        r := Err(ForeignKeyViolation(UserTable));
      } else if recipe !in Ids(recipes) {
        r := Err(ForeignKeyViolation(RecipeTable));
      } else {
        r := Ok(favorites.nextId);
        favorites := Append(favorites, Favorites(user, recipe));
      }
      assert Outcome(State(), r) == StoreSpec.AddFavorite(db, user, recipe);
      AddFavoriteValid(db, slugify, user, recipe);
    }

    method AddToCart(user: nat, recipe: nat) returns (r: Result<nat>)
      requires Valid()
      modifies this
      ensures Valid()
      ensures Outcome(State(), r) == StoreSpec.AddToCart(old(State()), user, recipe)
    {
      ghost var db := State();
      if (user, recipe) in KeySet(carts, CartPair) {
        r := Err(UniqueViolation(UniqueCart));
      } else if user !in Ids(users) {
        r := Err(ForeignKeyViolation(UserTable));
      } else if recipe !in Ids(recipes) {
        r := Err(ForeignKeyViolation(RecipeTable));
      } else {
        r := Ok(carts.nextId);
        carts := Append(carts, Cart(user, recipe));
      }
      assert Outcome(State(), r) == StoreSpec.AddToCart(db, user, recipe);
      AddToCartValid(db, slugify, user, recipe);
    }

    // -------------------------------------------------------------------------
    // deletes: on_delete=CASCADE on every foreign key

    /** Writes every table at once. Internal to DeleteCascading, which passes
        it a database proved valid; it checks nothing itself. */
    method WriteAll(next: Db)
      modifies this
      ensures State() == next
    {
      users, subscriptions, ingredients, tags, recipes := next.users, next.subscriptions, next.ingredients, next.tags, next.recipes;
      recipeTags, ingredientValues, favorites, carts := next.recipeTags, next.ingredientValues, next.favorites, next.carts;
    }

    /** Deletes the rows in `g` and, table by table, every row whose foreign key
        names one of them. `g` must hold every recipe of every user it holds,
        as a user's delete does. */
    method DeleteCascading(g: Gone)
      requires Valid() && Closed(State(), g)
      modifies this
      ensures Valid() && State() == Cascade(old(State()), g)
    {
      var next := CascadeTables(State(), g);
      CascadeValid(State(), slugify, g);
      WriteAll(next);
    }

    method DeleteUser(u: nat)
      requires Valid()
      modifies this
      ensures Valid()
      ensures State() == StoreSpec.DeleteUser(old(State()), u)
    {
      var g := DeleteUserGone(State(), u);
      DeleteCascading(g);
    }

    method DeleteRecipe(id: nat)
      requires Valid()
      modifies this
      ensures Valid()
      ensures State() == StoreSpec.DeleteRecipe(old(State()), id)
    {
      var g := Gone({}, {id}, {}, {});
      DeleteCascading(g);
    }

    method DeleteIngredient(id: nat)
      requires Valid()
      modifies this
      ensures Valid()
      ensures State() == StoreSpec.DeleteIngredient(old(State()), id)
    {
      var g := Gone({}, {}, {id}, {});
      DeleteCascading(g);
    }

    method DeleteTag(id: nat)
      requires Valid()
      modifies this
      ensures Valid()
      ensures State() == StoreSpec.DeleteTag(old(State()), id)
    {
      var g := Gone({}, {}, {}, {id});
      DeleteCascading(g);
    }
  }
}
