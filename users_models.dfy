/** The models of the users application: the custom user and the subscription
    between two users, with the field validators that run when a user is
    validated (never on a raw save). */
module UsersModels {

  const EmailMaxLength := 254
  const NameMaxLength := 150

  /** The fields of a User row. `username`, `last_name` and `is_staff` come from
      Django's AbstractUser; `email`, `first_name` and `second_name` are declared
      by the model itself. */
  datatype User = User(
    email: string,
    username: string,
    firstName: string,
    lastName: string,
    secondName: string,
    isStaff: bool)

  /** A Subscribtion row: `user` follows `author`; both are user ids. */
  datatype Subscribtion = Subscribtion(user: nat, author: nat)

  /** The column of the `unique=True` constraint on email. */
  function EmailKey(u: User): string {
    u.email
  }

  /** The column of AbstractUser's `unique=True` constraint on username. */
  function UsernameKey(u: User): string {
    u.username
  }

  /** The columns of the `unique_subscription` constraint. */
  function SubscriptionPair(s: Subscribtion): (nat, nat) {
    (s.user, s.author)
  }

  predicate IsAsciiWordChar(c: char) {
    ('a' <= c <= 'z') || ('A' <= c <= 'Z') || ('0' <= c <= '9') || c == '_'
  }

  /** What the model requires of `word`, its stand-in for Python's Unicode `\w`:
      on ASCII it is exactly [A-Za-z0-9_]. Beyond ASCII it is left open. */
  ghost predicate WordClass(word: char -> bool) {
    forall c: char :: c < 128 as char ==> (word(c) <==> IsAsciiWordChar(c))
  }

  /** A member of the character class [\w.@+-]. */
  predicate IsNameChar(c: char, word: char -> bool) {
    word(c) || c == '.' || c == '@' || c == '+' || c == '-'
  }

  /** The language the pattern ^[\w.@+-]+$ is written to describe: one or more
      characters, each from the class. */
  predicate MatchesNamePattern(s: string, word: char -> bool) {
    |s| > 0 && forall i :: 0 <= i < |s| ==> IsNameChar(s[i], word)
  }

  /** What RegexValidator accepts for ^[\w.@+-]+$ as written: it calls
      re.search, and Python's `$` also matches just before a final line feed, so
      one trailing "\n" after a matching string slips through. */
  predicate MatchesNamePatternAsWritten(s: string, word: char -> bool) {
    || MatchesNamePattern(s, word)
    || (|s| > 1 && s[|s| - 1] == '\n' && MatchesNamePattern(s[..|s| - 1], word))
  }

  /** The validators of first_name and second_name: max_length=150 and the
      pattern, taken as a whole-string match. */
  predicate ValidName(s: string, word: char -> bool) {
    |s| <= NameMaxLength && MatchesNamePattern(s, word)
  }

  /** AbstractUser's username validator, UnicodeUsernameValidator: at most 150
      characters matching ^[\w.@+-]+\Z, an anchor that admits no trailing line
      feed. */
  predicate ValidUsername(s: string, word: char -> bool) {
    |s| <= NameMaxLength && MatchesNamePattern(s, word)
  }

  /** The field validators full_clean runs on a User: email is required and at
      most 254 characters, both declared name fields satisfy ValidName, the
      inherited username satisfies ValidUsername and the inherited, optional
      last_name has at most 150 characters. */
  predicate ValidUser(u: User, word: char -> bool) {
    && 0 < |u.email| <= EmailMaxLength
    && ValidName(u.firstName, word)
    && ValidName(u.secondName, word)
    && ValidUsername(u.username, word)
    && |u.lastName| <= NameMaxLength
  }

  /** ValidUser with the two name validators as written. */
  predicate ValidUserAsWritten(u: User, word: char -> bool) {
    && 0 < |u.email| <= EmailMaxLength
    && |u.firstName| <= NameMaxLength && MatchesNamePatternAsWritten(u.firstName, word)
    && |u.secondName| <= NameMaxLength && MatchesNamePatternAsWritten(u.secondName, word)
    && ValidUsername(u.username, word)
    && |u.lastName| <= NameMaxLength
  }

  /** User.clean, which full_clean runs after the field validators.
      USERNAME_FIELD is "email", so AbstractBaseUser.clean applies
      normalize_username (NFKC) to the email, and AbstractUser.clean then applies
      normalize_email (strip, and lower-case the domain); `normalizeEmail` stands
      for the two together. No other field changes. */
  function Cleaned(u: User, normalizeEmail: string -> string): (c: User)
    ensures c.email == normalizeEmail(u.email)
    ensures c.(email := u.email) == u
  {
    u.(email := normalizeEmail(u.email))
  }

  /** The pattern as written lets "Ann\n" through, which the pattern's own
      character class excludes. */
  lemma NamePatternAsWrittenAcceptsLineFeed(word: char -> bool)
    requires WordClass(word)
    ensures MatchesNamePatternAsWritten("Ann\n", word)
    ensures !MatchesNamePattern("Ann\n", word)
  {
    assert IsAsciiWordChar('A') && IsAsciiWordChar('n') && !IsAsciiWordChar('\n');
    assert "Ann\n"[..3] == "Ann";
    assert "Ann\n"[3] == '\n';
  }

  /** The as-written pattern differs from the intended one only by that single
      trailing line feed. */
  lemma NamePatternAsWrittenOnlyAddsLineFeed(s: string, word: char -> bool)
    requires MatchesNamePatternAsWritten(s, word) && !MatchesNamePattern(s, word)
    ensures exists t :: s == t + "\n" && MatchesNamePattern(t, word)
  {
    assert s == s[..|s| - 1] + "\n";
  }

  /** The corrected validator accepts no string holding a line break, and any
      string it accepts is a non-empty run of [\w.@+-] characters. */
  lemma NamePatternRejectsLineBreaks(s: string, word: char -> bool)
    requires WordClass(word)
    ensures '\n' in s || '\r' in s ==> !MatchesNamePattern(s, word)
    ensures MatchesNamePattern(s, word) ==> |s| > 0 && forall c :: c in s ==> IsNameChar(c, word)
  {
    assert !IsAsciiWordChar('\n') && !IsAsciiWordChar('\r');
  }

  /** A valid user has a non-empty email of at most 254 characters, names and a
      username of 1 to 150 characters from [\w.@+-], and a last name of at most
      150 characters. */
  lemma ValidUserBounds(u: User, word: char -> bool)
    requires ValidUser(u, word)
    ensures 1 <= |u.email| <= 254
    ensures 1 <= |u.firstName| <= 150 && 1 <= |u.secondName| <= 150
    ensures forall c :: c in u.firstName ==> IsNameChar(c, word)
    ensures forall c :: c in u.secondName ==> IsNameChar(c, word)
    ensures 1 <= |u.username| <= 150 && forall c :: c in u.username ==> IsNameChar(c, word)
    ensures |u.lastName| <= 150
  {
  }

  /** At the level of a whole user the two validators part on a first name with
      a trailing line feed: full_clean as written accepts the user, the
      corrected validator refuses it; every user the corrected one accepts, the
      as-written one accepts too. */
  lemma ValidUserAsWrittenAcceptsLineFeed(word: char -> bool, u: User)
    requires WordClass(word)
    ensures var v := User("ann@example.com", "ann", "Ann\n", "", "Lee", false);
      ValidUserAsWritten(v, word) && !ValidUser(v, word)
    ensures ValidUser(u, word) ==> ValidUserAsWritten(u, word)
  {
    NamePatternAsWrittenAcceptsLineFeed(word);
    assert IsAsciiWordChar('a') && IsAsciiWordChar('n') && IsAsciiWordChar('L') && IsAsciiWordChar('e');
    assert MatchesNamePattern("ann", word);
    assert MatchesNamePattern("Lee", word);
  }
}
