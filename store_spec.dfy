/** The database of both applications as one value: a table per model, the
    integrity rules the database itself enforces, and one function per write the
    models declare. Each function returns the database after the write and its
    result: the id of the written row, or the error that refused it (in which
    case the database is returned unchanged).

    What the database enforces on every write: primary keys, the unique
    constraints, the foreign keys, the range of integer columns and the length
    of the slug columns. The field
    validators (max_length, the value bounds, the name pattern) run only when a
    write is validated first; the Validated* functions are those writes. */
module StoreSpec {
  import opened Rows
  import opened Ordering
  import opened UsersModels
  import opened RecipesModels

  datatype TableName =
    | UserTable | SubscribtionTable | IngredientTable | TagTable | RecipeTable
    | RecipeTagTable | IngredientValueTable | FavoritesTable | CartTable

  datatype Constraint =
    | UniqueEmail | UniqueUsername | UniqueRecipeName | UniqueSubscription
    | UniqueRecipeTag | UniqueFavorite | UniqueCart

  /** Why a write was refused. */
  datatype Error =
    | UniqueViolation(constraint: Constraint)
    | ForeignKeyViolation(target: TableName)
    | NotFound(table: TableName)
    | IntegerOutOfRange
    | ValueTooLong(table: TableName)  // the slug column of `table`
    | ValidationFailed

  datatype Result<T> = Ok(value: T) | Err(error: Error)

  /** All tables of the store. */
  datatype Db = Db(
    users: Table<User>,
    subscriptions: Table<Subscribtion>,
    ingredients: Table<Ingredient>,
    tags: Table<Tag>,
    recipes: Table<Recipe>,
    recipeTags: Table<RecipeTag>,
    ingredientValues: Table<IngredientValue>,
    favorites: Table<Favorites>,
    carts: Table<Cart>)

  /** The database after a write, and the write's result. */
  datatype Outcome = Outcome(db: Db, result: Result<nat>)

  function EmptyDb(): Db {
    Db(EmptyTable(), EmptyTable(), EmptyTable(), EmptyTable(), EmptyTable(),
       EmptyTable(), EmptyTable(), EmptyTable(), EmptyTable())
  }

  // ---------------------------------------------------------------------------
  // The integrity rules

  predicate TablesWellFormed(db: Db) {
    && WellFormed(db.users) && WellFormed(db.subscriptions)
    && WellFormed(db.ingredients) && WellFormed(db.tags) && WellFormed(db.recipes)
    && WellFormed(db.recipeTags) && WellFormed(db.ingredientValues)
    && WellFormed(db.favorites) && WellFormed(db.carts)
  }

  /** The declared unique constraints. */
  predicate UniqueConstraints(db: Db) {
    && UniqueBy(db.users, EmailKey)
    && UniqueBy(db.users, UsernameKey)
    && UniqueBy(db.recipes, RecipeName)
    && UniqueBy(db.subscriptions, SubscriptionPair)
    && UniqueBy(db.recipeTags, RecipeTagPair)
    && UniqueBy(db.favorites, FavoritePair)
    && UniqueBy(db.carts, CartPair)
  }

  /** Subscribtion.user and Subscribtion.author name stored users. */
  function SubscriptionRefsIn(users: set<nat>): Row<Subscribtion> -> bool {
    (x: Row<Subscribtion>) => x.val.user in users && x.val.author in users
  }

  /** Recipe.author names a stored user. */
  function AuthorIn(users: set<nat>): Row<Recipe> -> bool {
    (x: Row<Recipe>) => x.val.author in users
  }

  function RecipeTagRefsIn(recipes: set<nat>, tags: set<nat>): Row<RecipeTag> -> bool {
    (x: Row<RecipeTag>) => x.val.recipe in recipes && x.val.tag in tags
  }

  function IngredientValueRefsIn(ingredients: set<nat>, recipes: set<nat>): Row<IngredientValue> -> bool {
    (x: Row<IngredientValue>) => x.val.ingredient in ingredients && x.val.recipe in recipes
  }

  function FavoriteRefsIn(users: set<nat>, recipes: set<nat>): Row<Favorites> -> bool {
    (x: Row<Favorites>) => x.val.user in users && x.val.recipe in recipes
  }

  function CartRefsIn(users: set<nat>, recipes: set<nat>): Row<Cart> -> bool {
    (x: Row<Cart>) => x.val.user in users && x.val.recipe in recipes
  }

  /** Every foreign key names a row that exists. */
  predicate ForeignKeys(db: Db) {
    && AllRows(db.subscriptions, SubscriptionRefsIn(Ids(db.users)))
    && AllRows(db.recipes, AuthorIn(Ids(db.users)))
    && AllRows(db.recipeTags, RecipeTagRefsIn(Ids(db.recipes), Ids(db.tags)))
    && AllRows(db.ingredientValues, IngredientValueRefsIn(Ids(db.ingredients), Ids(db.recipes)))
    && AllRows(db.favorites, FavoriteRefsIn(Ids(db.users), Ids(db.recipes)))
    && AllRows(db.carts, CartRefsIn(Ids(db.users), Ids(db.recipes)))
  }

  function IngredientSlugOf(slugify: string -> string): Row<Ingredient> -> bool {
    (x: Row<Ingredient>) => x.val.slug == slugify(x.val.name)
  }

  function TagSlugOf(slugify: string -> string): Row<Tag> -> bool {
    (x: Row<Tag>) => x.val.slug == slugify(x.val.name)
  }

  function RecipeSlugOf(slugify: string -> string): Row<Recipe> -> bool {
    (x: Row<Recipe>) => x.val.slug == slugify(x.val.name)
  }

  /** Every stored slug is the slug of the stored name. The database does not
      enforce this; it holds because every write of this model goes through
      `save` (QuerySet.update and bulk_create, which bypass it, are not
      modelled). */
  predicate SlugsDerived(db: Db, slugify: string -> string) {
    && AllRows(db.ingredients, IngredientSlugOf(slugify))
    && AllRows(db.tags, TagSlugOf(slugify))
    && AllRows(db.recipes, RecipeSlugOf(slugify))
  }

  function CookingTimeFits(): Row<Recipe> -> bool {
    (x: Row<Recipe>) => InIntegerColumn(x.val.cookingTime)
  }

  function AmountFits(): Row<IngredientValue> -> bool {
    (x: Row<IngredientValue>) => InIntegerColumn(x.val.amount)
  }

  function IngredientSlugFits(): Row<Ingredient> -> bool {
    (x: Row<Ingredient>) => SlugFits(x.val.slug)
  }

  function TagSlugFits(): Row<Tag> -> bool {
    (x: Row<Tag>) => SlugFits(x.val.slug)
  }

  function RecipeSlugFits(): Row<Recipe> -> bool {
    (x: Row<Recipe>) => SlugFits(x.val.slug)
  }

  /** Every stored slug fits its varchar(100) column. */
  predicate SlugColumns(db: Db) {
    && AllRows(db.ingredients, IngredientSlugFits())
    && AllRows(db.tags, TagSlugFits())
    && AllRows(db.recipes, RecipeSlugFits())
  }

  /** Every integer column holds a value of its 32-bit range. */
  predicate IntegerColumns(db: Db) {
    AllRows(db.recipes, CookingTimeFits()) && AllRows(db.ingredientValues, AmountFits())
  }

  /** The store invariant: what the database guarantees of its contents, and
      the slug rule that `save` keeps. */
  predicate Valid(db: Db, slugify: string -> string) {
    && TablesWellFormed(db)
    && UniqueConstraints(db)
    && ForeignKeys(db)
    && SlugsDerived(db, slugify)
    && IntegerColumns(db)
    && SlugColumns(db)
  }

  /** Keys into the users table stay valid when users are added. */
  lemma UserRefsGrow(db: Db, users: set<nat>)
    requires ForeignKeys(db) && Ids(db.users) <= users
    ensures AllRows(db.subscriptions, SubscriptionRefsIn(users))
    ensures AllRows(db.recipes, AuthorIn(users))
    ensures AllRows(db.favorites, FavoriteRefsIn(users, Ids(db.recipes)))
    ensures AllRows(db.carts, CartRefsIn(users, Ids(db.recipes)))
  {
    AllRowsWeaken(db.subscriptions, SubscriptionRefsIn(Ids(db.users)), SubscriptionRefsIn(users));
    AllRowsWeaken(db.recipes, AuthorIn(Ids(db.users)), AuthorIn(users));
    AllRowsWeaken(db.favorites, FavoriteRefsIn(Ids(db.users), Ids(db.recipes)), FavoriteRefsIn(users, Ids(db.recipes)));
    AllRowsWeaken(db.carts, CartRefsIn(Ids(db.users), Ids(db.recipes)), CartRefsIn(users, Ids(db.recipes)));
  }

  /** Keys into the recipes table stay valid when recipes are added. */
  lemma RecipeRefsGrow(db: Db, recipes: set<nat>)
    requires ForeignKeys(db) && Ids(db.recipes) <= recipes
    ensures AllRows(db.recipeTags, RecipeTagRefsIn(recipes, Ids(db.tags)))
    ensures AllRows(db.ingredientValues, IngredientValueRefsIn(Ids(db.ingredients), recipes))
    ensures AllRows(db.favorites, FavoriteRefsIn(Ids(db.users), recipes))
    ensures AllRows(db.carts, CartRefsIn(Ids(db.users), recipes))
  {
    AllRowsWeaken(db.recipeTags, RecipeTagRefsIn(Ids(db.recipes), Ids(db.tags)), RecipeTagRefsIn(recipes, Ids(db.tags)));
    AllRowsWeaken(db.ingredientValues, IngredientValueRefsIn(Ids(db.ingredients), Ids(db.recipes)),
                  IngredientValueRefsIn(Ids(db.ingredients), recipes));
    AllRowsWeaken(db.favorites, FavoriteRefsIn(Ids(db.users), Ids(db.recipes)), FavoriteRefsIn(Ids(db.users), recipes));
    AllRowsWeaken(db.carts, CartRefsIn(Ids(db.users), Ids(db.recipes)), CartRefsIn(Ids(db.users), recipes));
  }

  lemma EmptyDbValid(slugify: string -> string)
    ensures Valid(EmptyDb(), slugify)
  {
    EmptyDbKeys();
    EmptyDbColumns(slugify);
  }

  /** The keys of an empty database: nothing to break. */
  lemma EmptyDbKeys()
    ensures TablesWellFormed(EmptyDb()) && UniqueConstraints(EmptyDb()) && ForeignKeys(EmptyDb())
  {
    var e := EmptyDb();
    assert TablesWellFormed(e);
    assert UniqueConstraints(e);
    assert ForeignKeys(e);
  }

  /** The column rules of an empty database. */
  lemma EmptyDbColumns(slugify: string -> string)
    ensures SlugsDerived(EmptyDb(), slugify) && IntegerColumns(EmptyDb()) && SlugColumns(EmptyDb())
  {
    var e := EmptyDb();
    assert SlugsDerived(e, slugify);
    assert IntegerColumns(e);
    assert SlugColumns(e);
  }

  // ---------------------------------------------------------------------------
  // users.User and users.Subscribtion

  /** Inserting a user: email and username must both be new. */
  function CreateUser(db: Db, u: User): Outcome {
    if u.email in KeySet(db.users, EmailKey) then
      Outcome(db, Err(UniqueViolation(UniqueEmail)))
    else if u.username in KeySet(db.users, UsernameKey) then
      Outcome(db, Err(UniqueViolation(UniqueUsername)))
    else
      Outcome(db.(users := Append(db.users, u)), Ok(db.users.nextId))
  }

  /** full_clean, then save. full_clean runs the field validators on `u`, then
      User.clean, which normalises the email (Cleaned), then validate_unique,
      which refuses a taken email or username with a validation error before
      the database is reached; so the insert of the cleaned user after it never
      fails. */
  function ValidatedCreateUser(db: Db, word: char -> bool, normalizeEmail: string -> string, u: User): (o: Outcome)
    ensures o.result.Err? ==> o == Outcome(db, Err(ValidationFailed))
    ensures o.result.Ok? <==> ValidUser(u, word) && CreateUser(db, Cleaned(u, normalizeEmail)).result.Ok?
    ensures o.result.Ok? ==> Row(o.result.value, Cleaned(u, normalizeEmail)) in o.db.users.rows
  {
    var c := Cleaned(u, normalizeEmail);
    if !ValidUser(u, word) || c.email in KeySet(db.users, EmailKey)
       || c.username in KeySet(db.users, UsernameKey)
    then Outcome(db, Err(ValidationFailed))
    else CreateUser(db, c)
  }

  lemma CreateUserValid(db: Db, slugify: string -> string, u: User)
    requires Valid(db, slugify)
    ensures Valid(CreateUser(db, u).db, slugify)
  {
    var o := CreateUser(db, u);
    if o.result.Ok? {
      var w := u;
      var c := db.(users := Append(db.users, w));
      assert o.db == c;
      AppendWellFormed(db.users, w);
      AppendUnique(db.users, EmailKey, w);
      AppendUnique(db.users, UsernameKey, w);
      UserRefsGrow(db, Ids(c.users));
      assert Valid(c, slugify);
    }
  }

  /** Inserting a subscription: the pair (user, author) must be new and both
      users must exist. Nothing forbids user == author. */
  function Subscribe(db: Db, user: nat, author: nat): Outcome {
    if (user, author) in KeySet(db.subscriptions, SubscriptionPair) then
      Outcome(db, Err(UniqueViolation(UniqueSubscription)))
    else if user !in Ids(db.users) || author !in Ids(db.users) then
      Outcome(db, Err(ForeignKeyViolation(UserTable)))
    else
      Outcome(db.(subscriptions := Append(db.subscriptions, Subscribtion(user, author))),
              Ok(db.subscriptions.nextId))
  }

  lemma SubscribeValid(db: Db, slugify: string -> string, user: nat, author: nat)
    requires Valid(db, slugify)
    ensures Valid(Subscribe(db, user, author).db, slugify)
  {
    var o := Subscribe(db, user, author);
    if o.result.Ok? {
      var w := Subscribtion(user, author);
      var c := db.(subscriptions := Append(db.subscriptions, w));
      assert o.db == c;
      AppendWellFormed(db.subscriptions, w);
      AppendUnique(db.subscriptions, SubscriptionPair, w);
      AllRowsAppend(db.subscriptions, SubscriptionRefsIn(Ids(db.users)), w);
      assert Valid(c, slugify);
    }
  }

  // ---------------------------------------------------------------------------
  // recipes.Ingredient and recipes.Tag: no constraint but the primary key

  /** `Ingredient.objects.create`: save computes the slug, then the row is
      inserted unless the slug is too long for its column. */
  function CreateIngredient(db: Db, slugify: string -> string, v: Ingredient): Outcome {
    if !SlugFits(slugify(v.name)) then Outcome(db, Err(ValueTooLong(IngredientTable)))
    else
      Outcome(db.(ingredients := Append(db.ingredients, v.Saved(slugify))),
              Ok(db.ingredients.nextId))
  }

  /** full_clean, then save; an ingredient has no unique field or key to check.
      full_clean sees the slug before `save` derives it (still empty for a new
      object), so a valid ingredient can still be refused by the database for
      the length of its derived slug. */
  function ValidatedCreateIngredient(db: Db, slugify: string -> string, v: Ingredient): (o: Outcome)
    ensures o.result.Err? ==> o.db == db && o.result.error in {ValidationFailed, ValueTooLong(IngredientTable)}
    ensures o.result == Err(ValidationFailed) <==> !ValidIngredient(v)
    ensures o.result.Ok? <==> ValidIngredient(v) && SlugFits(slugify(v.name))
  {
    if !ValidIngredient(v) then Outcome(db, Err(ValidationFailed))
    else CreateIngredient(db, slugify, v)
  }

  /** `save` on a stored ingredient: the row with `obj.id` takes obj's fields
      and the slug of obj's name. */
  function SaveIngredient(db: Db, slugify: string -> string, obj: Row<Ingredient>): Outcome {
    if obj.id !in Ids(db.ingredients) then Outcome(db, Err(NotFound(IngredientTable)))
    else if !SlugFits(slugify(obj.val.name)) then Outcome(db, Err(ValueTooLong(IngredientTable)))
    else
      Outcome(db.(ingredients := Replace(db.ingredients, obj.id, obj.val.Saved(slugify))),
              Ok(obj.id))
  }

  lemma CreateIngredientValid(db: Db, slugify: string -> string, v: Ingredient)
    requires Valid(db, slugify)
    ensures Valid(CreateIngredient(db, slugify, v).db, slugify)
  {
    var o := CreateIngredient(db, slugify, v);
    if o.result.Ok? {
      var w := v.Saved(slugify);
      var c := db.(ingredients := Append(db.ingredients, w));
      assert o.db == c;
      AppendWellFormed(db.ingredients, w);
      AllRowsAppend(db.ingredients, IngredientSlugOf(slugify), w);
      AllRowsAppend(db.ingredients, IngredientSlugFits(), w);
      AllRowsWeaken(db.ingredientValues, IngredientValueRefsIn(Ids(db.ingredients), Ids(db.recipes)),
                    IngredientValueRefsIn(Ids(c.ingredients), Ids(db.recipes)));
      assert Valid(c, slugify);
    }
  }

  lemma SaveIngredientValid(db: Db, slugify: string -> string, obj: Row<Ingredient>)
    requires Valid(db, slugify)
    ensures Valid(SaveIngredient(db, slugify, obj).db, slugify)
  {
    if SaveIngredient(db, slugify, obj).result.Ok? {
      var v := obj.val.Saved(slugify);
      var c := db.(ingredients := Replace(db.ingredients, obj.id, v));
      assert SaveIngredient(db, slugify, obj).db == c;
      ReplaceWellFormed(db.ingredients, obj.id, v);
      AllRowsReplace(db.ingredients, IngredientSlugOf(slugify), obj.id, v);
      AllRowsReplace(db.ingredients, IngredientSlugFits(), obj.id, v);
      assert Valid(c, slugify);
    }
  }

  function CreateTag(db: Db, slugify: string -> string, v: Tag): Outcome {
    if !SlugFits(slugify(v.name)) then Outcome(db, Err(ValueTooLong(TagTable)))
    else Outcome(db.(tags := Append(db.tags, v.Saved(slugify))), Ok(db.tags.nextId))
  }

  function ValidatedCreateTag(db: Db, slugify: string -> string, v: Tag): (o: Outcome)
    ensures o.result.Err? ==> o.db == db && o.result.error in {ValidationFailed, ValueTooLong(TagTable)}
    ensures o.result == Err(ValidationFailed) <==> !ValidTag(v)
    ensures o.result.Ok? <==> ValidTag(v) && SlugFits(slugify(v.name))
  {
    if !ValidTag(v) then Outcome(db, Err(ValidationFailed))
    else CreateTag(db, slugify, v)
  }

  function SaveTag(db: Db, slugify: string -> string, obj: Row<Tag>): Outcome {
    if obj.id !in Ids(db.tags) then Outcome(db, Err(NotFound(TagTable)))
    else if !SlugFits(slugify(obj.val.name)) then Outcome(db, Err(ValueTooLong(TagTable)))
    else Outcome(db.(tags := Replace(db.tags, obj.id, obj.val.Saved(slugify))), Ok(obj.id))
  }

  lemma CreateTagValid(db: Db, slugify: string -> string, v: Tag)
    requires Valid(db, slugify)
    ensures Valid(CreateTag(db, slugify, v).db, slugify)
  {
    var o := CreateTag(db, slugify, v);
    if o.result.Ok? {
      var w := v.Saved(slugify);
      var c := db.(tags := Append(db.tags, w));
      assert o.db == c;
      AppendWellFormed(db.tags, w);
      AllRowsAppend(db.tags, TagSlugOf(slugify), w);
      AllRowsAppend(db.tags, TagSlugFits(), w);
      AllRowsWeaken(db.recipeTags, RecipeTagRefsIn(Ids(db.recipes), Ids(db.tags)), RecipeTagRefsIn(Ids(db.recipes), Ids(c.tags)));
      assert Valid(c, slugify);
    }
  }

  lemma SaveTagValid(db: Db, slugify: string -> string, obj: Row<Tag>)
    requires Valid(db, slugify)
    ensures Valid(SaveTag(db, slugify, obj).db, slugify)
  {
    if SaveTag(db, slugify, obj).result.Ok? {
      var v := obj.val.Saved(slugify);
      var c := db.(tags := Replace(db.tags, obj.id, v));
      assert SaveTag(db, slugify, obj).db == c;
      ReplaceWellFormed(db.tags, obj.id, v);
      AllRowsReplace(db.tags, TagSlugOf(slugify), obj.id, v);
      AllRowsReplace(db.tags, TagSlugFits(), obj.id, v);
      assert Valid(c, slugify);
    }
  }

  // ---------------------------------------------------------------------------
  // recipes.Recipe

  /** Inserting a recipe: cooking_time and the slug must fit their columns, the
      name must be new and the author must exist. */
  function CreateRecipe(db: Db, slugify: string -> string, v: Recipe): Outcome {
    if !InIntegerColumn(v.cookingTime) then Outcome(db, Err(IntegerOutOfRange))
    else if !SlugFits(slugify(v.name)) then Outcome(db, Err(ValueTooLong(RecipeTable)))
    else if v.name in KeySet(db.recipes, RecipeName) then
      Outcome(db, Err(UniqueViolation(UniqueRecipeName)))
    else if v.author !in Ids(db.users) then Outcome(db, Err(ForeignKeyViolation(UserTable)))
    else Outcome(db.(recipes := Append(db.recipes, v.Saved(slugify))), Ok(db.recipes.nextId))
  }

  /** full_clean, then save: the field validators, the check that the author
      exists (ForeignKey.validate) and validate_unique on the name all refuse
      with a validation error. full_clean sees the slug before `save` derives
      it (still empty for a new object): a valid name of up to 128 characters
      can have a derived slug longer than 100, which the database then
      refuses. */
  function ValidatedCreateRecipe(db: Db, slugify: string -> string, v: Recipe): (o: Outcome)
    ensures o.result.Err? ==> o.db == db && o.result.error in {ValidationFailed, ValueTooLong(RecipeTable)}
    ensures o.result == Err(ValidationFailed) <==>
            !(ValidRecipe(v) && v.name !in KeySet(db.recipes, RecipeName) && v.author in Ids(db.users))
    ensures o.result.Ok? <==>
            && ValidRecipe(v) && v.name !in KeySet(db.recipes, RecipeName) && v.author in Ids(db.users)
            && SlugFits(slugify(v.name))
  {
    if !ValidRecipe(v) || v.name in KeySet(db.recipes, RecipeName) || v.author !in Ids(db.users)
    then Outcome(db, Err(ValidationFailed))
    else CreateRecipe(db, slugify, v)
  }

  /** Some recipe other than `id` already has the name. */
  predicate NameTakenByOther(t: Table<Recipe>, id: nat, name: string) {
    exists x :: x in t.rows && x.id != id && x.val.name == name
  }

  /** `save` on a stored recipe, under the same rules as an insert; the row's
      own name does not count as taken. */
  function SaveRecipe(db: Db, slugify: string -> string, obj: Row<Recipe>): Outcome {
    if obj.id !in Ids(db.recipes) then Outcome(db, Err(NotFound(RecipeTable)))
    else if !InIntegerColumn(obj.val.cookingTime) then Outcome(db, Err(IntegerOutOfRange))
    else if !SlugFits(slugify(obj.val.name)) then Outcome(db, Err(ValueTooLong(RecipeTable)))
    else if NameTakenByOther(db.recipes, obj.id, obj.val.name) then
      Outcome(db, Err(UniqueViolation(UniqueRecipeName)))
    else if obj.val.author !in Ids(db.users) then Outcome(db, Err(ForeignKeyViolation(UserTable)))
    else
      Outcome(db.(recipes := Replace(db.recipes, obj.id, obj.val.Saved(slugify))), Ok(obj.id))
  }

  lemma CreateRecipeValid(db: Db, slugify: string -> string, v: Recipe)
    requires Valid(db, slugify)
    ensures Valid(CreateRecipe(db, slugify, v).db, slugify)
  {
    var o := CreateRecipe(db, slugify, v);
    if o.result.Ok? {
      var w := v.Saved(slugify);
      var c := db.(recipes := Append(db.recipes, w));
      assert o.db == c;
      AppendWellFormed(db.recipes, w);
      AppendUnique(db.recipes, RecipeName, w);
      AllRowsAppend(db.recipes, AuthorIn(Ids(db.users)), w);
      AllRowsAppend(db.recipes, RecipeSlugOf(slugify), w);
      AllRowsAppend(db.recipes, CookingTimeFits(), w);
      AllRowsAppend(db.recipes, RecipeSlugFits(), w);
      RecipeRefsGrow(db, Ids(c.recipes));
      assert Valid(c, slugify);
    }
  }

  lemma SaveRecipeValid(db: Db, slugify: string -> string, obj: Row<Recipe>)
    requires Valid(db, slugify)
    ensures Valid(SaveRecipe(db, slugify, obj).db, slugify)
  {
    if SaveRecipe(db, slugify, obj).result.Ok? {
      ReplaceRecipeValid(db, slugify, obj.id, obj.val.Saved(slugify));
    }
  }

  /** Overwriting a stored recipe with a storable value keeps the invariant. */
  lemma ReplaceRecipeValid(db: Db, slugify: string -> string, id: nat, v: Recipe)
    requires Valid(db, slugify) && id in Ids(db.recipes)
    requires v.slug == slugify(v.name) && InIntegerColumn(v.cookingTime) && SlugFits(v.slug)
    requires !NameTakenByOther(db.recipes, id, v.name) && v.author in Ids(db.users)
    ensures Valid(db.(recipes := Replace(db.recipes, id, v)), slugify)
  {
    var c := db.(recipes := Replace(db.recipes, id, v));
    ReplaceWellFormed(db.recipes, id, v);
    ReplaceUnique(db.recipes, RecipeName, id, v);
    AllRowsReplace(db.recipes, AuthorIn(Ids(db.users)), id, v);
    AllRowsReplace(db.recipes, RecipeSlugOf(slugify), id, v);
    AllRowsReplace(db.recipes, CookingTimeFits(), id, v);
    AllRowsReplace(db.recipes, RecipeSlugFits(), id, v);
    assert Valid(c, slugify);
  }

  // ---------------------------------------------------------------------------
  // The rows that link recipes to tags, ingredients, favorites and carts

  /** Inserting a row of the `tags` many-to-many table. */
  function AddRecipeTag(db: Db, recipe: nat, tag: nat): Outcome {
    if (recipe, tag) in KeySet(db.recipeTags, RecipeTagPair) then
      Outcome(db, Err(UniqueViolation(UniqueRecipeTag)))
    else if recipe !in Ids(db.recipes) then Outcome(db, Err(ForeignKeyViolation(RecipeTable)))
    else if tag !in Ids(db.tags) then Outcome(db, Err(ForeignKeyViolation(TagTable)))
    else
      Outcome(db.(recipeTags := Append(db.recipeTags, RecipeTag(recipe, tag))),
              Ok(db.recipeTags.nextId))
  }

  lemma AddRecipeTagValid(db: Db, slugify: string -> string, recipe: nat, tag: nat)
    requires Valid(db, slugify)
    ensures Valid(AddRecipeTag(db, recipe, tag).db, slugify)
  {
    var o := AddRecipeTag(db, recipe, tag);
    if o.result.Ok? {
      var w := RecipeTag(recipe, tag);
      var c := db.(recipeTags := Append(db.recipeTags, w));
      assert o.db == c;
      AppendWellFormed(db.recipeTags, w);
      AppendUnique(db.recipeTags, RecipeTagPair, w);
      AllRowsAppend(db.recipeTags, RecipeTagRefsIn(Ids(db.recipes), Ids(db.tags)), w);
      assert Valid(c, slugify);
    }
  }

  /** Inserting an ingredient amount: no unique constraint, so one recipe may
      list the same ingredient twice. */
  function AddIngredientValue(db: Db, v: IngredientValue): Outcome {
    if !InIntegerColumn(v.amount) then Outcome(db, Err(IntegerOutOfRange))
    else if v.ingredient !in Ids(db.ingredients) then
      Outcome(db, Err(ForeignKeyViolation(IngredientTable)))
    else if v.recipe !in Ids(db.recipes) then Outcome(db, Err(ForeignKeyViolation(RecipeTable)))
    else
      Outcome(db.(ingredientValues := Append(db.ingredientValues, v)),
              Ok(db.ingredientValues.nextId))
  }

  /** full_clean, then save: the amount's validators and ForeignKey.validate on
      both keys refuse with a validation error. */
  function ValidatedAddIngredientValue(db: Db, v: IngredientValue): (o: Outcome)
    ensures o.result.Err? ==> o == Outcome(db, Err(ValidationFailed))
    ensures o.result.Ok? <==>
            ValidIngredientValue(v) && v.ingredient in Ids(db.ingredients) && v.recipe in Ids(db.recipes)
  {
    if !ValidIngredientValue(v) || v.ingredient !in Ids(db.ingredients) || v.recipe !in Ids(db.recipes)
    then Outcome(db, Err(ValidationFailed))
    else AddIngredientValue(db, v)
  }

  lemma AddIngredientValueValid(db: Db, slugify: string -> string, v: IngredientValue)
    requires Valid(db, slugify)
    ensures Valid(AddIngredientValue(db, v).db, slugify)
  {
    var o := AddIngredientValue(db, v);
    if o.result.Ok? {
      var w := v;
      var c := db.(ingredientValues := Append(db.ingredientValues, w));
      assert o.db == c;
      AppendWellFormed(db.ingredientValues, w);
      AllRowsAppend(db.ingredientValues, IngredientValueRefsIn(Ids(db.ingredients), Ids(db.recipes)), w);
      AllRowsAppend(db.ingredientValues, AmountFits(), w);
      assert Valid(c, slugify);
    }
  }

  function AddFavorite(db: Db, user: nat, recipe: nat): Outcome {
    if (user, recipe) in KeySet(db.favorites, FavoritePair) then
      Outcome(db, Err(UniqueViolation(UniqueFavorite)))
    else if user !in Ids(db.users) then Outcome(db, Err(ForeignKeyViolation(UserTable)))
    else if recipe !in Ids(db.recipes) then Outcome(db, Err(ForeignKeyViolation(RecipeTable)))
    else
      Outcome(db.(favorites := Append(db.favorites, Favorites(user, recipe))),
              Ok(db.favorites.nextId))
  }

  lemma AddFavoriteValid(db: Db, slugify: string -> string, user: nat, recipe: nat)
    requires Valid(db, slugify)
    ensures Valid(AddFavorite(db, user, recipe).db, slugify)
  {
    var o := AddFavorite(db, user, recipe);
    if o.result.Ok? {
      var w := Favorites(user, recipe);
      var c := db.(favorites := Append(db.favorites, w));
      assert o.db == c;
      AppendWellFormed(db.favorites, w);
      AppendUnique(db.favorites, FavoritePair, w);
      AllRowsAppend(db.favorites, FavoriteRefsIn(Ids(db.users), Ids(db.recipes)), w);
      assert Valid(c, slugify);
    }
  }

  function AddToCart(db: Db, user: nat, recipe: nat): Outcome {
    if (user, recipe) in KeySet(db.carts, CartPair) then
      Outcome(db, Err(UniqueViolation(UniqueCart)))
    else if user !in Ids(db.users) then Outcome(db, Err(ForeignKeyViolation(UserTable)))
    else if recipe !in Ids(db.recipes) then Outcome(db, Err(ForeignKeyViolation(RecipeTable)))
    else
      Outcome(db.(carts := Append(db.carts, Cart(user, recipe))), Ok(db.carts.nextId))
  }

  lemma AddToCartValid(db: Db, slugify: string -> string, user: nat, recipe: nat)
    requires Valid(db, slugify)
    ensures Valid(AddToCart(db, user, recipe).db, slugify)
  {
    var o := AddToCart(db, user, recipe);
    if o.result.Ok? {
      var w := Cart(user, recipe);
      var c := db.(carts := Append(db.carts, w));
      assert o.db == c;
      AppendWellFormed(db.carts, w);
      AppendUnique(db.carts, CartPair, w);
      AllRowsAppend(db.carts, CartRefsIn(Ids(db.users), Ids(db.recipes)), w);
      assert Valid(c, slugify);
    }
  }

  // ---------------------------------------------------------------------------
  // Deletion: every foreign key is on_delete=CASCADE

  /** The rows a delete removes from the four referenced tables. */
  datatype Gone = Gone(users: set<nat>, recipes: set<nat>, ingredients: set<nat>, tags: set<nat>)

  /** The recipes gone include every recipe whose author is gone. */
  predicate Closed(db: Db, g: Gone) {
    forall x :: x in db.recipes.rows && x.val.author in g.users ==> x.id in g.recipes
  }

  function KeepSubscription(g: Gone): Row<Subscribtion> -> bool {
    (x: Row<Subscribtion>) => x.val.user !in g.users && x.val.author !in g.users
  }

  function KeepRecipeTag(g: Gone): Row<RecipeTag> -> bool {
    (x: Row<RecipeTag>) => x.val.recipe !in g.recipes && x.val.tag !in g.tags
  }

  function KeepIngredientValue(g: Gone): Row<IngredientValue> -> bool {
    (x: Row<IngredientValue>) => x.val.ingredient !in g.ingredients && x.val.recipe !in g.recipes
  }

  function KeepFavorite(g: Gone): Row<Favorites> -> bool {
    (x: Row<Favorites>) => x.val.user !in g.users && x.val.recipe !in g.recipes
  }

  function KeepCartItem(g: Gone): Row<Cart> -> bool {
    (x: Row<Cart>) => x.val.user !in g.users && x.val.recipe !in g.recipes
  }

  /** Removes the rows in `g` and every row whose foreign key names one of them. */
  function Cascade(db: Db, g: Gone): Db {
    Db(Keep(db.users, IdNotIn(g.users)),
       Keep(db.subscriptions, KeepSubscription(g)),
       Keep(db.ingredients, IdNotIn(g.ingredients)),
       Keep(db.tags, IdNotIn(g.tags)),
       Keep(db.recipes, IdNotIn(g.recipes)),
       Keep(db.recipeTags, KeepRecipeTag(g)),
       Keep(db.ingredientValues, KeepIngredientValue(g)),
       Keep(db.favorites, KeepFavorite(g)),
       Keep(db.carts, KeepCartItem(g)))
  }

  /** The ids of the recipes whose author is `u`. */
  function AuthoredBy(db: Db, u: nat): set<nat> {
    set x | x in db.recipes.rows && x.val.author == u :: x.id
  }

  /** Deleting a user deletes the user's recipes along with the user. */
  function DeleteUserGone(db: Db, u: nat): (g: Gone)
    ensures Closed(db, g)
  {
    Gone({u}, AuthoredBy(db, u), {}, {})
  }

  function DeleteUser(db: Db, u: nat): Db {
    Cascade(db, DeleteUserGone(db, u))
  }

  function DeleteRecipe(db: Db, r: nat): Db {
    Cascade(db, Gone({}, {r}, {}, {}))
  }

  function DeleteIngredient(db: Db, i: nat): Db {
    Cascade(db, Gone({}, {}, {i}, {}))
  }

  function DeleteTag(db: Db, t: nat): Db {
    Cascade(db, Gone({}, {}, {}, {t}))
  }

  lemma CascadeWellFormed(db: Db, g: Gone)
    requires TablesWellFormed(db)
    ensures TablesWellFormed(Cascade(db, g))
  {
    KeepWellFormed(db.users, IdNotIn(g.users));
    KeepWellFormed(db.subscriptions, KeepSubscription(g));
    KeepWellFormed(db.ingredients, IdNotIn(g.ingredients));
    KeepWellFormed(db.tags, IdNotIn(g.tags));
    KeepWellFormed(db.recipes, IdNotIn(g.recipes));
    KeepWellFormed(db.recipeTags, KeepRecipeTag(g));
    KeepWellFormed(db.ingredientValues, KeepIngredientValue(g));
    KeepWellFormed(db.favorites, KeepFavorite(g));
    KeepWellFormed(db.carts, KeepCartItem(g));
  }

  /** Removing rows never breaks a unique constraint. */
  lemma CascadeUnique(db: Db, g: Gone)
    requires UniqueConstraints(db)
    ensures UniqueConstraints(Cascade(db, g))
  {
  }

  /** The keys into the users table survive a cascade closed under the
      recipe-author edge. */
  lemma CascadeUserRefs(db: Db, g: Gone)
    requires ForeignKeys(db) && Closed(db, g)
    ensures AllRows(Cascade(db, g).subscriptions, SubscriptionRefsIn(Ids(Cascade(db, g).users)))
    ensures AllRows(Cascade(db, g).recipes, AuthorIn(Ids(Cascade(db, g).users)))
  {
    var c := Cascade(db, g);
    IdsKeepIdNotIn(db.users, g.users);
    AllRowsKeep(db.subscriptions, SubscriptionRefsIn(Ids(db.users)), SubscriptionRefsIn(Ids(c.users)),
                KeepSubscription(g));
    AllRowsKeep(db.recipes, AuthorIn(Ids(db.users)), AuthorIn(Ids(c.users)), IdNotIn(g.recipes));
  }

  /** The keys of the tag links and the ingredient amounts survive a cascade. */
  lemma CascadeLinkRefs(db: Db, g: Gone)
    requires ForeignKeys(db)
    ensures AllRows(Cascade(db, g).recipeTags,
                    RecipeTagRefsIn(Ids(Cascade(db, g).recipes), Ids(Cascade(db, g).tags)))
    ensures AllRows(Cascade(db, g).ingredientValues,
                    IngredientValueRefsIn(Ids(Cascade(db, g).ingredients), Ids(Cascade(db, g).recipes)))
  {
    var c := Cascade(db, g);
    IdsKeepIdNotIn(db.ingredients, g.ingredients);
    IdsKeepIdNotIn(db.tags, g.tags);
    IdsKeepIdNotIn(db.recipes, g.recipes);
    AllRowsKeep(db.recipeTags, RecipeTagRefsIn(Ids(db.recipes), Ids(db.tags)),
                RecipeTagRefsIn(Ids(c.recipes), Ids(c.tags)), KeepRecipeTag(g));
    AllRowsKeep(db.ingredientValues, IngredientValueRefsIn(Ids(db.ingredients), Ids(db.recipes)),
                IngredientValueRefsIn(Ids(c.ingredients), Ids(c.recipes)), KeepIngredientValue(g));
  }

  /** The keys of the favorites and the cart survive a cascade. */
  lemma CascadeMarkRefs(db: Db, g: Gone)
    requires ForeignKeys(db)
    ensures AllRows(Cascade(db, g).favorites,
                    FavoriteRefsIn(Ids(Cascade(db, g).users), Ids(Cascade(db, g).recipes)))
    ensures AllRows(Cascade(db, g).carts,
                    CartRefsIn(Ids(Cascade(db, g).users), Ids(Cascade(db, g).recipes)))
  {
    var c := Cascade(db, g);
    IdsKeepIdNotIn(db.users, g.users);
    IdsKeepIdNotIn(db.recipes, g.recipes);
    AllRowsKeep(db.favorites, FavoriteRefsIn(Ids(db.users), Ids(db.recipes)),
                FavoriteRefsIn(Ids(c.users), Ids(c.recipes)), KeepFavorite(g));
    AllRowsKeep(db.carts, CartRefsIn(Ids(db.users), Ids(db.recipes)),
                CartRefsIn(Ids(c.users), Ids(c.recipes)), KeepCartItem(g));
  }

  /** A cascade closed under the recipe-author edge leaves no dangling key. */
  lemma CascadeForeignKeys(db: Db, g: Gone)
    requires ForeignKeys(db) && Closed(db, g)
    ensures ForeignKeys(Cascade(db, g))
  {
    CascadeUserRefs(db, g);
    CascadeLinkRefs(db, g);
    CascadeMarkRefs(db, g);
  }

  lemma CascadeDerived(db: Db, slugify: string -> string, g: Gone)
    requires SlugsDerived(db, slugify) && IntegerColumns(db) && SlugColumns(db)
    ensures SlugsDerived(Cascade(db, g), slugify) && IntegerColumns(Cascade(db, g))
    ensures SlugColumns(Cascade(db, g))
  {
    AllRowsKeep(db.ingredients, IngredientSlugFits(), IngredientSlugFits(), IdNotIn(g.ingredients));
    AllRowsKeep(db.tags, TagSlugFits(), TagSlugFits(), IdNotIn(g.tags));
    AllRowsKeep(db.recipes, RecipeSlugFits(), RecipeSlugFits(), IdNotIn(g.recipes));
    AllRowsKeep(db.ingredients, IngredientSlugOf(slugify), IngredientSlugOf(slugify), IdNotIn(g.ingredients));
    AllRowsKeep(db.tags, TagSlugOf(slugify), TagSlugOf(slugify), IdNotIn(g.tags));
    AllRowsKeep(db.recipes, RecipeSlugOf(slugify), RecipeSlugOf(slugify), IdNotIn(g.recipes));
    AllRowsKeep(db.recipes, CookingTimeFits(), CookingTimeFits(), IdNotIn(g.recipes));
    AllRowsKeep(db.ingredientValues, AmountFits(), AmountFits(), KeepIngredientValue(g));
  }

  /** A cascade closed under the recipe-author edge keeps the store valid. */
  lemma CascadeValid(db: Db, slugify: string -> string, g: Gone)
    requires Valid(db, slugify) && Closed(db, g)
    ensures Valid(Cascade(db, g), slugify)
  {
    CascadeWellFormed(db, g);
    CascadeUnique(db, g);
    CascadeForeignKeys(db, g);
    CascadeDerived(db, slugify, g);
  }

  // ---------------------------------------------------------------------------
  // Listings: the Meta.ordering of each model with an integer ordering key

  /** User: ordering = ['id']. */
  function ListUsers(db: Db): (r: seq<Row<User>>)
    ensures forall i, j :: 0 <= i < j < |r| ==> r[i].id <= r[j].id
    ensures multiset(r) == multiset(db.users.rows)
  {
    SortBy(db.users.rows, (x: Row<User>) => x.id)
  }

  /** Subscribtion: ordering = ['-author_id']. */
  function ListSubscriptions(db: Db): (r: seq<Row<Subscribtion>>)
    ensures forall i, j :: 0 <= i < j < |r| ==> r[i].val.author >= r[j].val.author
    ensures multiset(r) == multiset(db.subscriptions.rows)
  {
    SortBy(db.subscriptions.rows, (x: Row<Subscribtion>) => -(x.val.author as int))
  }

  /** Recipe: ordering = ['-id'], newest first. */
  function ListRecipes(db: Db): (r: seq<Row<Recipe>>)
    ensures forall i, j :: 0 <= i < j < |r| ==> r[i].id >= r[j].id
    ensures multiset(r) == multiset(db.recipes.rows)
  {
    SortBy(db.recipes.rows, (x: Row<Recipe>) => -(x.id as int))
  }

  /** Favorites: ordering = ['user']. */
  function ListFavorites(db: Db): (r: seq<Row<Favorites>>)
    ensures forall i, j :: 0 <= i < j < |r| ==> r[i].val.user <= r[j].val.user
    ensures multiset(r) == multiset(db.favorites.rows)
  {
    SortBy(db.favorites.rows, (x: Row<Favorites>) => x.val.user)
  }

  /** Cart: ordering = ['user']. */
  function ListCarts(db: Db): (r: seq<Row<Cart>>)
    ensures forall i, j :: 0 <= i < j < |r| ==> r[i].val.user <= r[j].val.user
    ensures multiset(r) == multiset(db.carts.rows)
  {
    SortBy(db.carts.rows, (x: Row<Cart>) => x.val.user)
  }
}
