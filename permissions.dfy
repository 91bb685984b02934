/** The two permission classes of the REST API.

    Each rule is a predicate over the request; evaluating a predicate cannot
    change any state, which is all that "side-effect-free" asks of them. */
module Permissions {

  /** `request.user`: Django's anonymous user, or a stored account with its
      primary key and its `is_staff` flag. */
  datatype RequestUser = AnonymousUser | Account(id: nat, staff: bool)
  {
    /** `is_authenticated`: false only for the anonymous user. */
    predicate IsAuthenticated() {
      Account?
    }

    /** `is_staff`: the anonymous user is never staff. */
    predicate IsStaff() {
      Account? && staff
    }

    /** `obj.author == request.user`: a user instance equals the account with the
        same primary key and never equals the anonymous user. */
    predicate Is(author: nat) {
      Account? && id == author
    }
  }

  /** The parts of a request the rules read: the HTTP method, as the request
      carries it, and the user. */
  datatype Request = Request(verb: string, user: RequestUser)

  /** The REST framework's SAFE_METHODS tuple. */
  const SafeMethods: seq<string> := ["GET", "HEAD", "OPTIONS"]

  predicate IsSafeMethod(m: string) {
    m in SafeMethods
  }

  /** IsAdminOrReadOnly.has_permission. */
  predicate AdminOrReadOnly(req: Request) {
    IsSafeMethod(req.verb) || req.user.IsStaff()
  }

  /** IsAuthorOrReadOnly.has_permission. */
  predicate AuthorOrReadOnly(req: Request) {
    IsSafeMethod(req.verb) || req.user.IsAuthenticated()
  }

  /** IsAuthorOrReadOnly.has_object_permission for an object whose `author` is
      the user with primary key `author`. */
  predicate AuthorOrReadOnlyObject(req: Request, author: nat) {
    req.user.Is(author)
  }

  /** The safe methods are exactly GET, HEAD and OPTIONS; the comparison is on
      the exact string, so TRACE (safe in section 4.2.1 of RFC 7231) and a
      lower-case "get" are unsafe. */
  lemma SafeMethodsExactly(m: string)
    ensures IsSafeMethod(m) <==> m == "GET" || m == "HEAD" || m == "OPTIONS"
    ensures !IsSafeMethod("TRACE") && !IsSafeMethod("get")
  {
  }

  /** A safe method passes IsAdminOrReadOnly whatever the user. */
  lemma AdminRuleAllowsSafe(req: Request)
    requires IsSafeMethod(req.verb)
    ensures AdminOrReadOnly(req)
  {
  }

  /** An unsafe method passes IsAdminOrReadOnly exactly for staff. */
  lemma AdminRuleUnsafeNeedsStaff(req: Request)
    requires !IsSafeMethod(req.verb)
    ensures AdminOrReadOnly(req) <==> req.user.Account? && req.user.staff
  {
  }

  /** A staff user passes IsAdminOrReadOnly for every method, and a non-staff
      user's write is refused where the same write by a staff user is allowed. */
  lemma AdminRuleStaffAlways(verb: string, id: nat)
    ensures AdminOrReadOnly(Request(verb, Account(id, true)))
    ensures !IsSafeMethod(verb) ==>
              !AdminOrReadOnly(Request(verb, Account(id, false))) &&
              !AdminOrReadOnly(Request(verb, AnonymousUser))
  {
  }

  /** IsAuthorOrReadOnly.has_permission holds exactly for a safe method or an
      authenticated user; in particular an anonymous write is refused. */
  lemma AuthorRuleRequest(req: Request)
    ensures AuthorOrReadOnly(req) <==> IsSafeMethod(req.verb) || req.user.Account?
    ensures req.user == AnonymousUser && !IsSafeMethod(req.verb) ==> !AuthorOrReadOnly(req)
  {
  }

  /** The object rule ignores the method: it holds exactly when the requester is
      the author, so even a GET on another author's object is refused. */
  lemma AuthorRuleObjectIgnoresMethod(req: Request, author: nat, other: string)
    ensures AuthorOrReadOnlyObject(req, author) <==> req.user.Account? && req.user.id == author
    ensures AuthorOrReadOnlyObject(req, author) == AuthorOrReadOnlyObject(req.(verb := other), author)
    ensures req.user.Account? && req.user.id != author ==> !AuthorOrReadOnlyObject(Request("GET", req.user), author)
  {
  }

  /** On an object view both checks run (the request rule, then the object
      rule); together they admit exactly the author, for every method. */
  lemma AuthorRuleOnObjectView(req: Request, author: nat)
    ensures AuthorOrReadOnly(req) && AuthorOrReadOnlyObject(req, author) <==>
            req.user.Account? && req.user.id == author
  {
  }
}
