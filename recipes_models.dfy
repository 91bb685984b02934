/** The models of the recipes application, their field validators and the slug
    that `save` derives from the name. Foreign keys are the primary keys of the
    referenced rows. */
module RecipesModels {

  const IngredientNameMaxLength := 64
  const TagNameMaxLength := 64
  const RecipeNameMaxLength := 128
  const CookingTimeMin := 1
  const CookingTimeMax := 6000
  const AmountMin := 1
  const AmountMax := 10000
  const DefaultTagColor := "#FF0000"
  /** The `max_length` of the `slug` SlugField of Ingredient, Tag and Recipe,
      the length of its varchar(100) column. full_clean does not check the slug
      `save` will write: when a new object is validated its slug is still empty,
      and `save` derives it afterwards. */
  const SlugMaxLength := 100

  /** A slug the varchar(100) column can hold. */
  predicate SlugFits(slug: string) {
    |slug| <= SlugMaxLength
  }

  datatype Ingredient = Ingredient(name: string, slug: string, measurementUnit: string)
  {
    /** Ingredient.save: the slug is recomputed from the name before the row is
        written. */
    function Saved(slugify: string -> string): (r: Ingredient)
      ensures r.slug == slugify(name)
      ensures r.name == name && r.measurementUnit == measurementUnit
    {
      this.(slug := slugify(name))
    }
  }

  datatype Tag = Tag(name: string, slug: string, color: string)
  {
    /** Tag.save. */
    function Saved(slugify: string -> string): (r: Tag)
      ensures r.slug == slugify(name)
      ensures r.name == name && r.color == color
    {
      this.(slug := slugify(name))
    }
  }

  /** A Recipe row; `author` is a user id and `image` the stored file's path.
      Its ingredients and tags live in the IngredientValue and RecipeTag tables. */
  datatype Recipe = Recipe(
    name: string,
    slug: string,
    author: nat,
    image: string,
    text: string,
    cookingTime: int)
  {
    /** Recipe.save. */
    function Saved(slugify: string -> string): (r: Recipe)
      ensures r.slug == slugify(name)
      ensures r.name == name && r.author == author && r.image == image
      ensures r.text == text && r.cookingTime == cookingTime
    {
      this.(slug := slugify(name))
    }
  }

  /** A row of the table Django creates for the `tags` many-to-many field. */
  datatype RecipeTag = RecipeTag(recipe: nat, tag: nat)

  /** The amount of one ingredient in one recipe. */
  datatype IngredientValue = IngredientValue(ingredient: nat, recipe: nat, amount: int)

  datatype Favorites = Favorites(user: nat, recipe: nat)

  datatype Cart = Cart(user: nat, recipe: nat)

  /** Recipe.name has `unique=True`. */
  function RecipeName(r: Recipe): string {
    r.name
  }

  /** The columns of the unique pair on the many-to-many table. */
  function RecipeTagPair(x: RecipeTag): (nat, nat) {
    (x.recipe, x.tag)
  }

  /** The columns of `unique_favorite`. */
  function FavoritePair(x: Favorites): (nat, nat) {
    (x.user, x.recipe)
  }

  /** The columns of `unique_cart`. */
  function CartPair(x: Cart): (nat, nat) {
    (x.user, x.recipe)
  }

  /** The range of an IntegerField column: the database stores a signed 32-bit
      integer and refuses any other value. */
  predicate InIntegerColumn(x: int) {
    -0x8000_0000 <= x < 0x8000_0000
  }

  /** Ingredient's validators: a required name of at most 64 characters and a
      required measurement unit (its TextField max_length is not a validator). */
  predicate ValidIngredient(i: Ingredient) {
    0 < |i.name| <= IngredientNameMaxLength && |i.measurementUnit| > 0
  }

  predicate IsHexDigit(c: char) {
    ('0' <= c <= '9') || ('a' <= c <= 'f') || ('A' <= c <= 'F')
  }

  /** The hex format of a ColorField: `#` and then three or six hex digits. */
  predicate IsHexColor(s: string) {
    && (|s| == 4 || |s| == 7)
    && s[0] == '#'
    && forall i :: 1 <= i < |s| ==> IsHexDigit(s[i])
  }

  /** Tag's validators: a required name of at most 64 characters and a
      required color in hex format. */
  predicate ValidTag(t: Tag) {
    && 0 < |t.name| <= TagNameMaxLength
    && IsHexColor(t.color)
  }

  /** Recipe's validators: a required name of at most 128 characters, a required
      image and text, and 1 <= cooking_time <= 6000. */
  predicate ValidRecipe(r: Recipe) {
    && 0 < |r.name| <= RecipeNameMaxLength
    && |r.image| > 0
    && |r.text| > 0
    && CookingTimeMin <= r.cookingTime <= CookingTimeMax
  }

  /** IngredientValue's validators: 1 <= amount <= 10000. */
  predicate ValidIngredientValue(v: IngredientValue) {
    AmountMin <= v.amount <= AmountMax
  }

  /** The cooking time bounds at their edges: 0 and 6001 are refused, 1 and
      6000 accepted; a validated value always fits its integer column. */
  lemma CookingTimeEdges(r: Recipe)
    requires 0 < |r.name| <= 128 && |r.image| > 0 && |r.text| > 0
    ensures !ValidRecipe(r.(cookingTime := 0)) && !ValidRecipe(r.(cookingTime := 6001))
    ensures ValidRecipe(r.(cookingTime := 1)) && ValidRecipe(r.(cookingTime := 6000))
    ensures ValidRecipe(r) <==> 1 <= r.cookingTime <= 6000
    ensures ValidRecipe(r) ==> InIntegerColumn(r.cookingTime)
  {
  }

  /** The amount bounds at their edges. */
  lemma AmountEdges(v: IngredientValue)
    ensures !ValidIngredientValue(v.(amount := 0)) && !ValidIngredientValue(v.(amount := 10001))
    ensures ValidIngredientValue(v.(amount := 1)) && ValidIngredientValue(v.(amount := 10000))
    ensures ValidIngredientValue(v) ==> InIntegerColumn(v.amount)
  {
  }

  /** Examples at the edges of the color format: the default color is a valid
      one; a color without `#`, with a digit too many or too few, or an empty
      one is refused. */
  lemma TagColorEdges(t: Tag)
    requires 0 < |t.name| <= 64
    ensures ValidTag(t.(color := DefaultTagColor)) && ValidTag(t.(color := "#fa0"))
    ensures !ValidTag(t.(color := "")) && !ValidTag(t.(color := "FF0000"))
    ensures !ValidTag(t.(color := "#FF00")) && !ValidTag(t.(color := "#GG0000"))
    ensures ValidTag(t) ==> t.color[0] == '#' && 4 <= |t.color| <= 7
  {
    assert "#GG0000"[1] == 'G' && !IsHexDigit('G');
  }

  /** A recipe name longer than 128 characters is never valid. */
  lemma RecipeNameBound(r: Recipe)
    requires ValidRecipe(r)
    ensures 1 <= |r.name| <= 128
  {
  }

  /** Saving twice gives what saving once gives: the slug depends only on the
      name, which save does not touch. */
  lemma SavedIdempotent(i: Ingredient, t: Tag, r: Recipe, slugify: string -> string)
    ensures i.Saved(slugify).Saved(slugify) == i.Saved(slugify)
    ensures t.Saved(slugify).Saved(slugify) == t.Saved(slugify)
    ensures r.Saved(slugify).Saved(slugify) == r.Saved(slugify)
  {
  }
}
