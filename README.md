# Foodgram core in Dafny

Foodgram is a recipe-sharing service built on Django and the Django REST
framework. Users publish recipes made of ingredients and tagged with tags. They
follow other authors, mark recipes as favorites and collect recipes in a
shopping cart. This project models the two parts of it that hold logic of their
own:

- **The access rules of the REST API.** These are `IsAdminOrReadOnly` and
  `IsAuthorOrReadOnly`, written as predicates over the request (module
  `Permissions`).
- **The data store.** These are the models of the `users` and `recipes`
  applications and the integrity rules they declare:
  - unique emails, usernames, recipe names and pairs;
  - the `on_delete=CASCADE` foreign keys;
  - the 32-bit integer columns;
  - the slug that every `save` derives from the name, and the varchar(100)
    column that holds it;
  - the field validators, which run only when an object is validated
    (`full_clean`) and never on a raw save. Validation also normalises a
    user's email (`User.clean`), checks the unique fields and the foreign
    keys, and refuses with a validation error before the database is reached;
  - the `Meta.ordering` of the listings whose ordering key is an integer.

The model is layered as follows:

- `Rows` is a database table. A table is its rows in insertion order plus its
  id sequence, which only grows. The module holds the append, delete and
  overwrite operations and their lemmas.
- `Ordering` is the `ORDER BY` of a listing: a stable sort, proved sorted and a
  permutation.
- `UsersModels` and `RecipesModels` hold the rows of each model, their
  validators and their `save` slug rule.
- `StoreSpec` is the whole database as one value `Db`. It holds:
  - the invariant the database maintains (`Valid`);
  - one function per write, returning the new database and the id written or
    the error that refused the write. A refused write leaves every table's
    rows unchanged, and its id sequence too (which PostgreSQL does not
    promise: see "Left out");
  - lemmas proving that every write keeps `Valid`.
- `StoreProperties` proves what the models promise of those writes: duplicates
  refused, exactly the referencing rows removed by a cascade, nothing else
  changed, and saves idempotent.
- `Store` is the database as the running program sees it: the class
  `Database`, whose table fields each write updates in place. Each method keeps
  `Valid()` and leaves the tables exactly as the matching `StoreSpec` function
  says. A cascading delete filters each table row by row in a loop.

`django.utils.text.slugify`, the email normalisation of `User.clean` and
Python's `\w` are not interpreted. They are the `slugify`, `normalizeEmail` and
`wordChar` constants of a `Database` and parameters of the `StoreSpec`
functions. `wordChar` is only required to agree with
`[A-Za-z0-9_]` on ASCII.

`IsAuthorOrReadOnly`'s docstring reads "Permission to unsafe methdos for
author". Its `has_permission` lets every request with a safe method through,
an anonymous one included, and an unsafe one from any authenticated user. Only
`has_object_permission` limits a request to the object's author. The model
follows the code.

## Model

| member | source | states |
|---|---|---|
| Permissions.SafeMethodsExactly | backend/api/permissions.py:7 | A method is safe exactly when it is GET, HEAD or OPTIONS, compared as exact strings. TRACE and a lower-case "get" are unsafe. |
| Permissions.AdminRuleAllowsSafe | backend/api/permissions.py:6-8 | IsAdminOrReadOnly admits every safe request, whoever sends it. |
| Permissions.AdminRuleUnsafeNeedsStaff | backend/api/permissions.py:7-8 | For an unsafe method, IsAdminOrReadOnly holds exactly when the requester is a staff account. |
| Permissions.AdminRuleStaffAlways | backend/api/permissions.py:7-8 | A staff account passes for every method. A non-staff account and the anonymous user are refused every unsafe method. |
| Permissions.AuthorRuleRequest | backend/api/permissions.py:13-15 | IsAuthorOrReadOnly.has_permission holds exactly for a safe method or an authenticated user. An anonymous write is refused. |
| Permissions.AuthorRuleObjectIgnoresMethod | backend/api/permissions.py:17-18 | The object check holds exactly when the requester's id is the object's author. It does not depend on the method, so a GET on another author's object is refused. |
| Permissions.AuthorRuleOnObjectView | backend/api/permissions.py:13-18 | The request check and the object check together admit exactly the author, for every method. |
| UsersModels.NamePatternAsWrittenAcceptsLineFeed | backend/users/models.py:17-20 | The name validator as written accepts "Ann\n", which the character class of `^[\w.@+-]+$` excludes. |
| UsersModels.NamePatternAsWrittenOnlyAddsLineFeed | backend/users/models.py:26-29 | A string the as-written validator accepts and the intended pattern refuses is a matching string plus one final line feed. |
| UsersModels.NamePatternRejectsLineBreaks | backend/users/models.py:14-31 | The corrected pattern refuses any string holding a line feed or carriage return. What it accepts is non-empty and made of `[\w.@+-]` characters. |
| UsersModels.ValidUserBounds | backend/users/models.py:9-31 | A valid user has an email of 1 to 254 characters. Both name fields and the username have 1 to 150 characters, every one of them from `[\w.@+-]`, and the last name at most 150. |
| RecipesModels.Ingredient.Saved | backend/recipes/models.py:25-27 | After save, slug is slugify(name), and name and measurement_unit are as they were. |
| RecipesModels.Tag.Saved | backend/recipes/models.py:42-44 | After save, slug is slugify(name), and name and color are as they were. |
| RecipesModels.Recipe.Saved | backend/recipes/models.py:105-107 | After save, slug is slugify(name), and every other field is as it was. |
| RecipesModels.SavedIdempotent | backend/recipes/models.py:25-27 | Saving an ingredient, tag or recipe twice gives what saving it once gives. |
| RecipesModels.CookingTimeEdges | backend/recipes/models.py:92-98 | cooking_time 0 and 6001 are refused, and 1 and 6000 accepted. Otherwise-valid recipes are valid exactly for 1..6000, which fits the integer column. |
| RecipesModels.AmountEdges | backend/recipes/models.py:126-131 | amount 0 and 10001 are refused, and 1 and 10000 accepted. A valid amount fits the integer column. |
| RecipesModels.RecipeNameBound | backend/recipes/models.py:57-61 | A valid recipe has a name of 1 to 128 characters. |
| Permissions.AdminOrReadOnly | backend/api/permissions.py:6-8 | IsAdminOrReadOnly.has_permission: a safe method, or a staff requester. |
| Permissions.AuthorOrReadOnly | backend/api/permissions.py:13-15 | IsAuthorOrReadOnly.has_permission: a safe method, or an authenticated requester. |
| Permissions.AuthorOrReadOnlyObject | backend/api/permissions.py:17-18 | IsAuthorOrReadOnly.has_object_permission: the requester is the object's author. |
| UsersModels.MatchesNamePatternAsWritten | backend/users/models.py:17-20 | What `re.search` with `^[\w.@+-]+$` accepts: a run of class characters, optionally followed by one final line feed. |
| UsersModels.MatchesNamePattern | backend/users/models.py:17-20 | The language the pattern is written to describe: one or more class characters and nothing else. |
| UsersModels.ValidName | backend/users/models.py:14-31 | The validators of first_name and second_name: at most 150 characters matching the corrected pattern. |
| UsersModels.ValidUsername | backend/users/models.py:7 | The validators of the username inherited from AbstractUser: at most 150 characters, matched with a `\Z` anchor. |
| UsersModels.Cleaned | backend/users/models.py:33 | User.clean with USERNAME_FIELD = "email": the email becomes its normalised form and no other field changes. |
| UsersModels.ValidUser | backend/users/models.py:7-31 | The field validators full_clean runs on a user. |
| UsersModels.ValidUserAsWritten | backend/users/models.py:14-31 | The same validators with the name patterns as written. |
| UsersModels.ValidUserAsWrittenAcceptsLineFeed | backend/users/models.py:14-31 | A user whose first name ends in a line feed passes the validators as written and is refused by the corrected ones; every user the corrected ones accept, the as-written ones accept. |
| RecipesModels.ValidIngredient | backend/recipes/models.py:13-18 | Ingredient's validators: a name of 1 to 64 characters and a non-empty measurement unit. |
| RecipesModels.IsHexColor | backend/recipes/models.py:40 | The hex format a ColorField checks: `#` and three or six hex digits. |
| RecipesModels.ValidTag | backend/recipes/models.py:33-40 | Tag's validators: a name of 1 to 64 characters and a hex color. |
| RecipesModels.TagColorEdges | backend/recipes/models.py:40 | Examples only: the default `#FF0000` and `#fa0` are valid colors; an empty color, a color without `#`, one of four digits and one with a non-hex digit are refused. |
| RecipesModels.ValidRecipe | backend/recipes/models.py:57-98 | Recipe's validators: a name of 1 to 128 characters, an image, a text and 1 <= cooking_time <= 6000. |
| RecipesModels.ValidIngredientValue | backend/recipes/models.py:126-131 | IngredientValue's validators: 1 <= amount <= 10000. |
| StoreSpec.UniqueConstraints | backend/recipes/models.py:57-187 | The declared unique constraints: email, username, recipe name, and the subscription, recipe-tag, favorite and cart pairs. |
| StoreSpec.ForeignKeys | backend/recipes/models.py:66-180 | Every foreign key names a stored row. |
| StoreSpec.SlugColumns | backend/recipes/models.py:14-65 | Every stored slug of an ingredient, a tag and a recipe fits its varchar(100) column. |
| StoreSpec.Valid | backend/recipes/models.py:11-187 | The store invariant: well-formed tables, the unique constraints, the foreign keys, derived slugs that fit their varchar(100) columns, and 32-bit integer columns. |
| StoreSpec.CreateUser | backend/users/models.py:7-13 | A user insert: a taken email, then a taken username, is refused; otherwise the row is appended with the next id. |
| StoreSpec.ValidatedCreateUser | backend/users/models.py:9-33 | full_clean, then save. The validators run on the user as given; the unique checks and the stored row use the cleaned user, whose email is normalised. Any refusal is a validation error that leaves the database unchanged. It succeeds exactly when the user is valid and the insert of the cleaned user succeeds. |
| StoreSpec.Subscribe | backend/users/models.py:40-60 | A subscription insert: a taken pair, then a missing user, is refused; otherwise the row is appended. |
| StoreSpec.CreateIngredient | backend/recipes/models.py:11-27 | An ingredient insert: a slug longer than 100 is refused; otherwise the row is appended with its derived slug. |
| StoreSpec.ValidatedCreateIngredient | backend/recipes/models.py:13-27 | Any refusal leaves the database unchanged. It is a validation error exactly when the ingredient is invalid, and the only other refusal is the slug column's length. It succeeds exactly when the ingredient is valid and its slug fits. |
| StoreSpec.SaveIngredient | backend/recipes/models.py:14-27 | Saving a stored ingredient overwrites its row with the derived slug, unless the slug is longer than 100. |
| StoreSpec.CreateTag | backend/recipes/models.py:33-44 | A tag insert: a slug longer than 100 is refused; otherwise the row is appended with its derived slug. |
| StoreSpec.ValidatedCreateTag | backend/recipes/models.py:35-44 | Any refusal leaves the database unchanged. It is a validation error exactly when the tag is invalid, and the only other refusal is the slug column's length. It succeeds exactly when the tag is valid and its slug fits. |
| StoreSpec.SaveTag | backend/recipes/models.py:36-44 | Saving a stored tag overwrites its row with the derived slug, unless the slug is longer than 100. |
| StoreSpec.CreateRecipe | backend/recipes/models.py:55-107 | A recipe insert: a cooking time out of 32 bits, then a slug longer than 100, then a taken name, then a missing author, is refused; otherwise the row is appended with its derived slug. |
| StoreSpec.ValidatedCreateRecipe | backend/recipes/models.py:57-107 | Any refusal leaves the database unchanged. It is a validation error exactly when the recipe is invalid, its name is taken or its author is missing; the only other refusal is the slug column's length, which full_clean does not check. It succeeds exactly when all four hold. |
| StoreSpec.SaveRecipe | backend/recipes/models.py:57-107 | Saving a stored recipe under the insert's rules, the slug length included, its own name not counting as taken. |
| StoreSpec.AddRecipeTag | backend/recipes/models.py:86-91 | A recipe-tag insert: a taken pair, then a missing recipe or tag, is refused. |
| StoreSpec.AddIngredientValue | backend/recipes/models.py:113-131 | An amount insert: an amount out of 32 bits, then a missing ingredient or recipe, is refused. |
| StoreSpec.ValidatedAddIngredientValue | backend/recipes/models.py:113-131 | Any refusal is a validation error that leaves the database unchanged. It succeeds exactly when the amount is valid and both keys exist. |
| StoreSpec.AddFavorite | backend/recipes/models.py:145-163 | A favorite insert: a taken pair, then a missing user or recipe, is refused. |
| StoreSpec.AddToCart | backend/recipes/models.py:169-187 | A cart insert: a taken pair, then a missing user or recipe, is refused. |
| StoreSpec.Cascade | backend/recipes/models.py:113-180 | The given rows go, and so does every row whose foreign key names one of them; every other row stays. |
| StoreSpec.DeleteUser | backend/users/models.py:42-53 | A user's delete removes the user and the user's recipes, with everything that references them. |
| StoreSpec.DeleteRecipe | backend/recipes/models.py:120-180 | A recipe's delete cascades to its amounts, tag links, favorites and cart items. |
| StoreSpec.DeleteIngredient | backend/recipes/models.py:115-119 | An ingredient's delete cascades to its amounts. |
| StoreSpec.DeleteTag | backend/recipes/models.py:86-91 | A tag's delete cascades to its recipe-tag links. |
| Ordering.SortBy | backend/recipes/models.py:100-101 | The listing of a table is in ascending order of the ordering key and is a permutation of the table's rows. |
| Ordering.SortBySorted | backend/users/models.py:36-37 | A table already in key order is listed as it is. |
| StoreSpec.EmptyDbValid | backend/recipes/models.py:11-187 | A freshly migrated, empty database satisfies every declared constraint. |
| StoreSpec.CreateUserValid | backend/users/models.py:7-13 | Inserting a user, or refusing to, never breaks the primary keys, the unique emails and usernames, the foreign keys, the slugs or the integer columns. |
| StoreSpec.SubscribeValid | backend/users/models.py:40-60 | Inserting a subscription keeps the database valid, including the unique pair and both keys into the users table. |
| StoreSpec.CreateIngredientValid | backend/recipes/models.py:11-27 | Inserting an ingredient keeps the database valid. In particular the new row's slug is derived from its name. |
| StoreSpec.SaveIngredientValid | backend/recipes/models.py:25-27 | Saving an ingredient keeps the database valid. |
| StoreSpec.CreateTagValid | backend/recipes/models.py:33-44 | Inserting a tag keeps the database valid. |
| StoreSpec.SaveTagValid | backend/recipes/models.py:42-44 | Saving a tag keeps the database valid. |
| StoreSpec.CreateRecipeValid | backend/recipes/models.py:55-98 | Inserting a recipe keeps the database valid: unique name, existing author, derived slug and cooking_time within 32 bits. |
| StoreSpec.SaveRecipeValid | backend/recipes/models.py:105-107 | Saving a recipe keeps the database valid. |
| StoreSpec.ReplaceRecipeValid | backend/recipes/models.py:57-72 | Overwriting a stored recipe with a value whose name is free, whose author exists, whose slug is derived and whose cooking time fits keeps the database valid. |
| StoreSpec.AddRecipeTagValid | backend/recipes/models.py:86-91 | Inserting a row of the recipe-tag table keeps the database valid, including its unique pair and both keys. |
| StoreSpec.AddIngredientValueValid | backend/recipes/models.py:113-131 | Inserting an ingredient amount keeps the database valid, including both keys and the amount's column range. |
| StoreSpec.AddFavoriteValid | backend/recipes/models.py:145-163 | Inserting a favorite keeps the database valid, including `unique_favorite` and both keys. |
| StoreSpec.AddToCartValid | backend/recipes/models.py:169-187 | Inserting a cart item keeps the database valid, including `unique_cart` and both keys. |
| StoreSpec.DeleteUserGone | backend/recipes/models.py:66-72 | The rows a user's delete removes include every recipe the user wrote. |
| StoreSpec.CascadeForeignKeys | backend/recipes/models.py:113-180 | A cascade that removes every recipe of a removed author leaves no foreign key dangling. |
| StoreSpec.CascadeValid | backend/recipes/models.py:66-72 | Such a cascade keeps the whole database valid. |
| StoreSpec.ListUsers | backend/users/models.py:37 | Users are listed in ascending id order, as a permutation of the table. |
| StoreSpec.ListSubscriptions | backend/users/models.py:56 | Subscriptions are listed in descending author id order, as a permutation of the table. |
| StoreSpec.ListRecipes | backend/recipes/models.py:101 | Recipes are listed newest first, in descending id order, as a permutation of the table. |
| StoreSpec.ListFavorites | backend/recipes/models.py:159 | Favorites are listed in ascending user id order, as a permutation of the table. |
| StoreSpec.ListCarts | backend/recipes/models.py:183 | Cart items are listed in ascending user id order, as a permutation of the table. |
| StoreProperties.EmailTakenRefused | backend/users/models.py:9-13 | A user whose email is already stored is refused with the unique-email error, and the database is unchanged. |
| StoreProperties.CreateUserInserts | backend/users/models.py:7-13 | Inserting a user succeeds exactly when no stored user shares its email or username. On success exactly one row, with the next id, is appended to the users table. On failure nothing changes. |
| StoreProperties.SubscriptionDuplicateRefused | backend/users/models.py:57-60 | A second subscription with the same (user, author) is refused, and the database is unchanged. |
| StoreProperties.SelfSubscriptionAccepted | backend/users/models.py:40-60 | A user may subscribe to themself. The row (u, u) is appended. |
| StoreProperties.FavoriteDuplicateRefused | backend/recipes/models.py:162-163 | A duplicate favorite is refused, and every table is unchanged. |
| StoreProperties.CartDuplicateRefused | backend/recipes/models.py:186-187 | A duplicate cart item is refused, and every table is unchanged. |
| StoreProperties.AddFavoriteInserts | backend/recipes/models.py:145-163 | Adding a favorite succeeds exactly when the pair is new and both the user and the recipe exist. On success exactly that row is appended and nothing else changes. |
| StoreProperties.AddToCartInserts | backend/recipes/models.py:169-187 | Adding a cart item succeeds exactly when the pair is new and both the user and the recipe exist. On success exactly that row is appended and nothing else changes. |
| StoreProperties.NoDuplicatePairs | backend/recipes/models.py:162-187 | A valid database holds no two favorites, cart items or subscriptions with the same pair, and no two users with the same email. |
| StoreProperties.RecipeNameTakenRefused | backend/recipes/models.py:57-61 | A recipe whose name is taken is refused and the database is unchanged: a raw insert whose columns fit with the unique-name error, a validated one always with a validation error. |
| StoreProperties.NormalizedEmailTakenRefused | backend/users/models.py:9-33 | A validated user whose email normalises to a stored email is refused with a validation error and nothing changes, although a raw insert of the same user is accepted when its email as given is new. |
| StoreProperties.ValidatedUserStored | backend/users/models.py:9-33 | A user stored through validation passes the validators and is appended as the cleaned user, with the normalised email. |
| StoreProperties.LongSlugRefused | backend/recipes/models.py:14-107 | A slug longer than 100 refuses every insert and save of an ingredient, a tag or a recipe, validated or not, and nothing changes. |
| StoreProperties.LongRecipeNameNeverStored | backend/recipes/models.py:57-65 | A recipe name of 101 to 128 characters whose slug keeps its length passes the name validator, but no create, raw or validated, stores it. |
| StoreProperties.ValidatedRecipeStored | backend/recipes/models.py:57-107 | A recipe stored through validation has a cooking time of 1 to 6000, a name of 1 to 128 characters and a slug of at most 100, and is appended with its derived slug. |
| StoreProperties.RawCreateSkipsValidators | backend/recipes/models.py:92-98 | A raw insert stores cooking_time 0, which validation refuses: the validators do not run on save. |
| StoreProperties.ValidatedAmountStored | backend/recipes/models.py:126-131 | An amount stored through validation is between 1 and 10000 and is appended as given. |
| StoreProperties.SaveIngredientWrites | backend/recipes/models.py:25-27 | Saving a stored ingredient replaces exactly its row, with the slug of the new name. Every other row and table is unchanged. |
| StoreProperties.SaveIngredientIdempotent | backend/recipes/models.py:25-27 | Saving a row as it is stored changes nothing, and saving twice gives what saving once gives. |
| StoreProperties.SaveTagWrites | backend/recipes/models.py:42-44 | Saving a stored tag replaces exactly its row, with the slug of the new name. Nothing else changes. |
| StoreProperties.SaveTagIdempotent | backend/recipes/models.py:42-44 | Saving a tag as stored changes nothing. Saving twice is saving once. |
| StoreProperties.SaveRecipeWrites | backend/recipes/models.py:105-107 | Saving a stored recipe whose name is free, whose author exists and whose cooking time fits replaces exactly its row, with the slug of the new name. Nothing else changes. |
| StoreProperties.SaveStoredRecipeUnchanged | backend/recipes/models.py:105-107 | Saving a recipe exactly as stored succeeds: its own name does not count as taken, and nothing changes. |
| StoreProperties.SaveRecipeIdempotent | backend/recipes/models.py:105-107 | Saving a recipe twice gives what saving it once gives, whether the first save succeeded or not. |
| StoreProperties.DeleteRecipeKeepsOthers | backend/recipes/models.py:113-180 | Deleting a recipe leaves the users, subscriptions, ingredients and tags as they were. |
| StoreProperties.DeleteRecipeExact | backend/recipes/models.py:120-180 | Deleting recipe r removes exactly recipe r and the ingredient amounts, tag links, favorites and cart items that reference it. |
| StoreProperties.DeleteRecipeValid | backend/recipes/models.py:120-180 | Deleting a recipe keeps the database valid, with no key dangling, and the id is gone. |
| StoreProperties.DeleteIngredientKeepsOthers | backend/recipes/models.py:115-119 | Deleting an ingredient changes only the ingredients and the ingredient amounts. |
| StoreProperties.DeleteIngredientExact | backend/recipes/models.py:115-119 | Deleting ingredient i removes exactly ingredient i and the ingredient amounts that name it. |
| StoreProperties.DeleteIngredientValid | backend/recipes/models.py:115-119 | Deleting an ingredient keeps the database valid, and the id is gone. |
| StoreProperties.DeleteTagKeepsOthers | backend/recipes/models.py:86-91 | Deleting a tag changes only the tags and the recipe-tag links. |
| StoreProperties.DeleteTagExact | backend/recipes/models.py:86-91 | Deleting tag t removes exactly tag t and the links that name it. |
| StoreProperties.DeleteTagValid | backend/recipes/models.py:86-91 | Deleting a tag keeps the database valid, and the id is gone. |
| StoreProperties.AuthoredByExact | backend/recipes/models.py:66-72 | The recipes a user's delete takes with it are exactly the stored recipes whose author is that user. |
| StoreProperties.DeleteUserKeepsCatalog | backend/recipes/models.py:11-44 | Deleting a user leaves the ingredients and tags as they were. |
| StoreProperties.DeleteUserExact | backend/users/models.py:42-53 | Deleting user u removes exactly user u and every subscription in which u is the subscriber or the author. |
| StoreProperties.DeleteUserRecipes | backend/recipes/models.py:66-72 | Deleting user u removes exactly the recipes written by u. |
| StoreProperties.DeleteUserLinks | backend/recipes/models.py:147-180 | Deleting user u removes exactly the favorites and cart items of u or of u's recipes, and the amounts and tag links of u's recipes. |
| StoreProperties.DeleteUserValid | backend/users/models.py:42-53 | Deleting a user keeps the database valid, with no key dangling, and the id is gone. |
| StoreProperties.DeleteMissingRecipeUnchanged | backend/recipes/models.py:55-72 | Deleting a recipe id that is not stored changes nothing. |
| StoreProperties.DeleteMissingUserUnchanged | backend/users/models.py:42-53 | Deleting a user id that is not stored changes nothing. |
| StoreProperties.UsersListedInInsertionOrder | backend/users/models.py:36-37 | In a valid database the users' listing by id is the table in insertion order. |
| Store.FilterRows | backend/recipes/models.py:66-72 | The loop that deletes rows one at a time keeps exactly the rows the filter retains, in table order. |
| Store.KeepRows | backend/recipes/models.py:115-124 | Deleting rows from a table leaves the filtered rows and the id sequence as it was. |
| Store.CascadeTables | backend/recipes/models.py:113-180 | The tables computed one by one are exactly the cascade's result. |
| Store.Database.constructor | backend/users/models.py:7-62 | A new database is empty and valid, with the given slugify, word class and email normalisation. |
| Store.Database.CreateUser | backend/users/models.py:7-37 | The insert keeps the invariant and has exactly StoreSpec.CreateUser's result and new tables. |
| Store.Database.ValidatedCreateUser | backend/users/models.py:9-33 | full_clean, then save: the result and tables of StoreSpec.ValidatedCreateUser, keeping the invariant. |
| Store.Database.Subscribe | backend/users/models.py:40-60 | The result and tables of StoreSpec.Subscribe, keeping the invariant. |
| Store.Database.CreateIngredient | backend/recipes/models.py:11-27 | The result and tables of StoreSpec.CreateIngredient, keeping the invariant. |
| Store.Database.ValidatedCreateIngredient | backend/recipes/models.py:13-27 | The result and tables of StoreSpec.ValidatedCreateIngredient, keeping the invariant. |
| Store.Database.SaveIngredient | backend/recipes/models.py:25-27 | The result and tables of StoreSpec.SaveIngredient, keeping the invariant. |
| Store.Database.CreateTag | backend/recipes/models.py:33-44 | The result and tables of StoreSpec.CreateTag, keeping the invariant. |
| Store.Database.ValidatedCreateTag | backend/recipes/models.py:35-44 | The result and tables of StoreSpec.ValidatedCreateTag: a name of 1 to 64 characters and a hex color, then the insert, which checks the slug's length. |
| Store.Database.SaveTag | backend/recipes/models.py:42-44 | The result and tables of StoreSpec.SaveTag, keeping the invariant. |
| Store.Database.CreateRecipe | backend/recipes/models.py:55-107 | The result and tables of StoreSpec.CreateRecipe, keeping the invariant. |
| Store.Database.ValidatedCreateRecipe | backend/recipes/models.py:57-107 | The result and tables of StoreSpec.ValidatedCreateRecipe: the validators, a free name and an existing author, each refused with a validation error, then the insert, which checks the slug's length. |
| Store.Database.SaveRecipe | backend/recipes/models.py:105-107 | The result and tables of StoreSpec.SaveRecipe, keeping the invariant. |
| Store.Database.AddRecipeTag | backend/recipes/models.py:86-91 | The result and tables of StoreSpec.AddRecipeTag, keeping the invariant. |
| Store.Database.AddIngredientValue | backend/recipes/models.py:113-131 | The result and tables of StoreSpec.AddIngredientValue, keeping the invariant. |
| Store.Database.ValidatedAddIngredientValue | backend/recipes/models.py:113-131 | The result and tables of StoreSpec.ValidatedAddIngredientValue: the amount bounds and both keys, each refused with a validation error. |
| Store.Database.AddFavorite | backend/recipes/models.py:145-163 | The result and tables of StoreSpec.AddFavorite, keeping the invariant. |
| Store.Database.AddToCart | backend/recipes/models.py:169-187 | The result and tables of StoreSpec.AddToCart, keeping the invariant. |
| Store.Database.DeleteCascading | backend/recipes/models.py:113-180 | For a set of deleted rows that holds every recipe of every deleted user, every table becomes what the cascade leaves of it, and the invariant is kept. |
| Store.Database.DeleteUser | backend/users/models.py:42-53 | The tables become StoreSpec.DeleteUser of the old ones, keeping the invariant. |
| Store.Database.DeleteRecipe | backend/recipes/models.py:120-180 | The tables become StoreSpec.DeleteRecipe of the old ones, keeping the invariant. |
| Store.Database.DeleteIngredient | backend/recipes/models.py:115-119 | The tables become StoreSpec.DeleteIngredient of the old ones, keeping the invariant. |
| Store.Database.DeleteTag | backend/recipes/models.py:86-91 | The tables become StoreSpec.DeleteTag of the old ones, keeping the invariant. |

## Left out

- backend/api/pagination.py only configures the REST framework's paginator, a page size and a parameter name. The paging algorithm is not part of this model.
- backend/recipes/admin.py and backend/users/admin.py register the admin pages; they are configuration and not part of this model.
- backend/recipes/management/commands/load_json.py reads a file and creates one ingredient per record. The file I/O is left out; each record's insert is `CreateIngredient`.
- The internals of `slugify`, of the email normalisation (NFKC, strip, lower-cased domain) and the Unicode extent of `\w`: all three are uninterpreted parameters.
- The format checks of `EmailField` and the storage of `ImageField`: an email and an image are plain strings.
- The password, login and permission-group machinery inherited from `AbstractUser`.
- `TextField` max_length, which Django enforces only in forms.
- StoreSpec.CreateUser: only the slug columns' varchar limit is modelled; the database's limits on email (254) and the name fields (150) are not checked on a raw insert, only by validation.
- Store.Database.CreateUser: the same as StoreSpec.CreateUser.
- StoreSpec.CreateIngredient: the name's varchar(64) is not checked on a raw insert; its slug's varchar(100) is.
- Store.Database.CreateIngredient: the same as StoreSpec.CreateIngredient.
- StoreSpec.CreateTag: neither the name's varchar(64) nor the color's varchar(18) is checked on a raw insert; the slug's is.
- Store.Database.CreateTag: the same as StoreSpec.CreateTag.
- StoreSpec.CreateRecipe: the name's varchar(128) and the image path's varchar(100) are not checked on a raw insert; the slug's is.
- Store.Database.CreateRecipe: the same as StoreSpec.CreateRecipe.
- StoreSpec.SaveIngredient, StoreSpec.SaveTag, StoreSpec.SaveRecipe and their Store.Database methods: the same varchar limits as the inserts are left out of a save.
- When one write breaks several rules, the model reports the first in this order: the column values (the integer range, then the slug length), then the unique constraints, then the foreign keys.
- Store.Database.SaveIngredient: saving an object whose id is not stored is an error here, where Django would fall back to an INSERT.
- Store.Database.SaveTag: the same; an unknown id gives NotFound, where Django would INSERT.
- Store.Database.SaveRecipe: the same; an unknown id gives NotFound, where Django would INSERT.
- StoreSpec.SaveIngredient, StoreSpec.SaveTag and StoreSpec.SaveRecipe: the same, being the functions those methods follow.
- QuerySet.update and bulk_create, which write rows without calling `save`; the slug rule in StoreSpec.Valid holds only because every modelled write goes through `save`.
- UsersModels.ValidUser: uses the corrected name pattern of the finding below, so it refuses a first or second name ending in one line feed, such as "Ann\n", which the validator as written accepts (UsersModels.ValidUserAsWritten, UsersModels.ValidUserAsWrittenAcceptsLineFeed).
- StoreSpec.ValidatedCreateUser: for the same reason refuses a user whose first or second name ends in a line feed, which full_clean as written accepts.
- Store.Database.ValidatedCreateUser: the same as StoreSpec.ValidatedCreateUser.
- UsersModels.ValidUserBounds: "every character from `[\w.@+-]`" is a property of the corrected validator; the one as written also lets a final line feed through.
- RecipesModels.IsHexColor: the color check is the hex format `#RGB` or `#RRGGBB` that django-colorfield checks by default; the library is not part of this model, its other formats and its length limit are not modelled, and neither is the final line feed its `$`-anchored pattern would also admit.
- RecipesModels.ValidTag: the same color assumption as RecipesModels.IsHexColor.
- StoreSpec.ValidatedCreateTag: the same color assumption as RecipesModels.IsHexColor.
- Store.Database.ValidatedCreateTag: the same color assumption as RecipesModels.IsHexColor.
- The Validated* operations report one `ValidationFailed` for every refusal; which fields failed, and full_clean's `exclude` and `validate_unique` parameters, are not modelled.
- Store.Database.AddRecipeTag: the many-to-many `add()` skips a pair that is already present, while this insert reports the unique violation.
- StoreSpec.AddRecipeTag: the same as Store.Database.AddRecipeTag, being the function that method follows.
- The order of ingredients and tags, and IngredientValue's ordering by the ingredient's name, sort by strings. The listings with string keys are left out; the integer-keyed ones are modelled.
- Store.Database.CreateUser: an insert refused by the database still consumes an id of the sequence in PostgreSQL; here the sequence only advances on success. The INSERT takes its id from `nextval` before the unique index or the foreign-key check refuses the row, and the sequence is not rolled back, so the next successful insert gets a higher id than the model's `nextId`. The id order of the rows, and so every listing, is the same; only the id values differ.
- StoreSpec.CreateUser: the same as Store.Database.CreateUser; its unique refusals keep `nextId`.
- StoreSpec.Subscribe: a refusal for a taken pair or a missing user keeps `nextId`, where the refused INSERT has used up an id.
- Store.Database.Subscribe: the same as StoreSpec.Subscribe.
- StoreSpec.CreateRecipe: the unique-name and author refusals keep `nextId`, where the refused INSERT has used up an id.
- Store.Database.CreateRecipe: the same as StoreSpec.CreateRecipe.
- StoreSpec.AddRecipeTag: a refusal for a taken pair or a missing recipe or tag keeps `nextId`, where the refused INSERT has used up an id.
- Store.Database.AddRecipeTag: the same as StoreSpec.AddRecipeTag.
- StoreSpec.AddIngredientValue: a refusal for a missing ingredient or recipe keeps `nextId`, where the foreign-key check fails after the id is taken.
- Store.Database.AddIngredientValue: the same as StoreSpec.AddIngredientValue.
- StoreSpec.AddFavorite: a refusal for a taken pair or a missing user or recipe keeps `nextId`, where the refused INSERT has used up an id.
- Store.Database.AddFavorite: the same as StoreSpec.AddFavorite.
- StoreSpec.AddToCart: a refusal for a taken pair or a missing user or recipe keeps `nextId`, where the refused INSERT has used up an id.
- Store.Database.AddToCart: the same as StoreSpec.AddToCart.
- StoreSpec.CreateIngredient: its `ValueTooLong` refusal keeps `nextId`; whether PostgreSQL has called `nextval` before it refuses a slug too long depends on when it evaluates the length cast, so the id may be used up there too.
- StoreSpec.CreateTag: the same as StoreSpec.CreateIngredient.
- StoreSpec.CreateRecipe: its `ValueTooLong` and integer-range refusals keep `nextId`, which PostgreSQL may have advanced, as for StoreSpec.CreateIngredient.
- StoreProperties.EmailTakenRefused: "the database is unchanged" after a refusal covers the rows and, in this model, the id sequence, which a refused PostgreSQL INSERT advances.
- StoreProperties.CreateUserInserts: "the database is unchanged" after a refusal covers the rows and, in this model, the id sequence, which a refused PostgreSQL INSERT advances.
- StoreProperties.SubscriptionDuplicateRefused: "the database is unchanged" after a refusal covers the rows and, in this model, the id sequence, which a refused PostgreSQL INSERT advances.
- StoreProperties.FavoriteDuplicateRefused: "the database is unchanged" after a refusal covers the rows and, in this model, the id sequence, which a refused PostgreSQL INSERT advances.
- StoreProperties.CartDuplicateRefused: "the database is unchanged" after a refusal covers the rows and, in this model, the id sequence, which a refused PostgreSQL INSERT advances.
- StoreProperties.RecipeNameTakenRefused: "the database is unchanged" after a refusal covers the rows and, in this model, the id sequence, which a refused PostgreSQL INSERT advances.
- The cascade into the admin log and the user's permission groups, which belong to Django's own tables.
- Concurrency, transactions and the overflow of the 32-bit id sequence.

## Findings

| source | as written | input that shows it | evidently intended | confidence | as-written member | corrected member |
|---|---|---|---|---|---|---|
| backend/users/models.py:18 | `RegexValidator(regex=r'^[\w.@+-]+$')` searches with Python's `re`, whose `$` also matches just before a final line feed | first_name = "Ann\n" is accepted | a name is one or more characters of `[\w.@+-]` and nothing else, which `\Z` or `fullmatch` would state | not executed | UsersModels.NamePatternAsWrittenAcceptsLineFeed | UsersModels.NamePatternRejectsLineBreaks |
