/**
 * The four form schemas. Each schema is a function from the form's values
 * to the set of rules the values break; a form is accepted when that set is
 * empty. Zod's e-mail, URL and UUID format checks are left uninterpreted
 * and arrive as the `Formats` parameter; the order in which Zod reports its
 * issues and the messages it attaches are not modelled, only which ones fire.
 */
module Schemas {
  import opened Wrappers

  /** The format checks Zod supplies, as opaque predicates. */
  datatype Formats = Formats(isEmail: string -> bool, isUrl: string -> bool, isUuid: string -> bool)

  datatype Field =
    | Email | Password | FirstName | LastName | ConfirmPassword | AcceptedTerms
    | Name | Description | Price | Stock | ImageUrl | Category
    | Items | ItemProductId(index: nat) | ItemQuantity(index: nat)

  datatype Rule =
    | Required | TooShort | BadFormat | NeedsUppercase | NeedsDigit
    | Mismatch | NotAccepted | NotPositive | NotInteger | Negative

  datatype Issue = Issue(field: Field, rule: Rule)

  predicate Accepted(issues: set<Issue>) {
    issues == {}
  }

  /** One Zod check: no issue when the condition holds, the given issue otherwise. */
  function Check(holds: bool, issue: Issue): (r: set<Issue>)
    ensures r == {} <==> holds
    ensures r <= {issue}
  {
    if holds then {} else {issue}
  }

  predicate HasUppercase(s: string) {
    exists i :: 0 <= i < |s| && 'A' <= s[i] <= 'Z'
  }

  predicate HasDigit(s: string) {
    exists i :: 0 <= i < |s| && '0' <= s[i] <= '9'
  }

  predicate IsInteger(x: real) {
    x.Floor as real == x
  }

  // ---------------------------------------------------------------- login

  datatype LoginValues = LoginValues(email: string, password: string)

  function LoginIssues(v: LoginValues, f: Formats): (r: set<Issue>)
    ensures Issue(Email, Required) in r <==> v.email == ""
    ensures Issue(Email, BadFormat) in r <==> !f.isEmail(v.email)
    ensures Issue(Password, TooShort) in r <==> |v.password| < 6
    ensures r <= {Issue(Email, Required), Issue(Email, BadFormat), Issue(Password, TooShort)}
  {
    Check(|v.email| >= 1, Issue(Email, Required))
    + Check(f.isEmail(v.email), Issue(Email, BadFormat))
    + Check(|v.password| >= 6, Issue(Password, TooShort))
  }

  /** Login is accepted exactly for a non-empty, well-formed e-mail and a password of six or more characters. */
  lemma LoginAcceptedIff(v: LoginValues, f: Formats)
    ensures Accepted(LoginIssues(v, f)) <==> v.email != "" && f.isEmail(v.email) && |v.password| >= 6
  {
    var r := LoginIssues(v, f);
    if !(v.email != "") { assert Issue(Email, Required) in r; }
    else if !f.isEmail(v.email) { assert Issue(Email, BadFormat) in r; }
    else if |v.password| < 6 { assert Issue(Password, TooShort) in r; }
  }

  // ---------------------------------------------------------------- register

  datatype RegisterValues = RegisterValues(
    firstName: string,
    lastName: string,
    email: string,
    password: string,
    confirmPassword: string,
    acceptedTerms: bool)

  /** The password chain: at least 8 characters, an upper-case letter, a digit. */
  function RegisterPasswordChecks(password: string): (r: set<Issue>)
    ensures Issue(Password, TooShort) in r <==> |password| < 8
    ensures Issue(Password, NeedsUppercase) in r <==> !HasUppercase(password)
    ensures Issue(Password, NeedsDigit) in r <==> !HasDigit(password)
    ensures forall i :: i in r ==> i.field == Password
  {
    Check(|password| >= 8, Issue(Password, TooShort))
    + Check(HasUppercase(password), Issue(Password, NeedsUppercase))
    + Check(HasDigit(password), Issue(Password, NeedsDigit))
  }

  /** The object's own field checks. */
  function RegisterFieldIssues(v: RegisterValues, f: Formats): (r: set<Issue>)
    ensures Issue(FirstName, TooShort) in r <==> |v.firstName| < 2
    ensures Issue(LastName, TooShort) in r <==> |v.lastName| < 2
    ensures Issue(Email, BadFormat) in r <==> !f.isEmail(v.email)
    ensures Issue(AcceptedTerms, NotAccepted) in r <==> !v.acceptedTerms
    ensures forall i :: i in r && i.field == Password <==> i in RegisterPasswordChecks(v.password)
    ensures Issue(ConfirmPassword, Mismatch) !in r
  {
    Check(|v.firstName| >= 2, Issue(FirstName, TooShort))
    + Check(|v.lastName| >= 2, Issue(LastName, TooShort))
    + Check(f.isEmail(v.email), Issue(Email, BadFormat))
    + RegisterPasswordChecks(v.password)
    + Check(v.acceptedTerms, Issue(AcceptedTerms, NotAccepted))
  }

  /**
   * The field checks and the object-level refinement. The refinement reports
   * on `confirmPassword`; Zod still runs it when a field check already failed,
   * because a failed length or pattern check does not abort the object parse.
   */
  function RegisterIssues(v: RegisterValues, f: Formats): (r: set<Issue>)
    ensures Issue(ConfirmPassword, Mismatch) in r <==> v.password != v.confirmPassword
    ensures r - {Issue(ConfirmPassword, Mismatch)} == RegisterFieldIssues(v, f)
  {
    RegisterFieldIssues(v, f) + Check(v.password == v.confirmPassword, Issue(ConfirmPassword, Mismatch))
  }

  /** A register password passes exactly when it has 8+ characters, an `A`-`Z` and a `0`-`9`. */
  lemma RegisterPasswordIssues(v: RegisterValues, f: Formats)
    ensures (forall i :: i in RegisterIssues(v, f) ==> i.field != Password)
        <==> |v.password| >= 8 && HasUppercase(v.password) && HasDigit(v.password)
  {
    var r := RegisterIssues(v, f);
    var pw := RegisterPasswordChecks(v.password);
    if |v.password| < 8 { assert Issue(Password, TooShort) in pw; }
    else if !HasUppercase(v.password) { assert Issue(Password, NeedsUppercase) in pw; }
    else if !HasDigit(v.password) { assert Issue(Password, NeedsDigit) in pw; }
    else {
      assert pw == {};
    }
  }

  /** Register is accepted exactly when every field rule and the confirmation match hold. */
  lemma RegisterAcceptedIff(v: RegisterValues, f: Formats)
    ensures Accepted(RegisterIssues(v, f))
        <==> && |v.firstName| >= 2 && |v.lastName| >= 2 && f.isEmail(v.email)
             && |v.password| >= 8 && HasUppercase(v.password) && HasDigit(v.password)
             && v.acceptedTerms && v.password == v.confirmPassword
  {
    var r := RegisterIssues(v, f);
    var fields := RegisterFieldIssues(v, f);
    var pw := RegisterPasswordChecks(v.password);
    if |v.firstName| < 2 { assert Issue(FirstName, TooShort) in fields; }
    else if |v.lastName| < 2 { assert Issue(LastName, TooShort) in fields; }
    else if !f.isEmail(v.email) { assert Issue(Email, BadFormat) in fields; }
    else if |v.password| < 8 { assert Issue(Password, TooShort) in pw; }
    else if !HasUppercase(v.password) { assert Issue(Password, NeedsUppercase) in pw; }
    else if !HasDigit(v.password) { assert Issue(Password, NeedsDigit) in pw; }
    else if !v.acceptedTerms { assert Issue(AcceptedTerms, NotAccepted) in fields; }
    else if v.password != v.confirmPassword { assert Issue(ConfirmPassword, Mismatch) in r; }
    else {
      assert pw == {};
      assert fields == {};
    }
  }

  /** The password and confirmation issues depend on those two values alone. */
  lemma RegisterPasswordIssuesLocal(v: RegisterValues, w: RegisterValues, f: Formats)
    requires v.password == w.password && v.confirmPassword == w.confirmPassword
    ensures forall i: Issue :: i.field == Password || i.field == ConfirmPassword ==>
              (i in RegisterIssues(v, f) <==> i in RegisterIssues(w, f))
  {
    forall i: Issue | i.field == Password || i.field == ConfirmPassword
      ensures i in RegisterIssues(v, f) <==> i in RegisterIssues(w, f)
    {
      if i.field == Password {
        assert i in RegisterIssues(v, f) <==> i in RegisterPasswordChecks(v.password);
        assert i in RegisterIssues(w, f) <==> i in RegisterPasswordChecks(w.password);
      }
    }
  }

  /**
   * Anyone the register form accepts also passes the login form with the
   * same e-mail and password, given that the e-mail check rejects "".
   */
  lemma RegisterAcceptedImpliesLoginAccepted(v: RegisterValues, f: Formats)
    requires !f.isEmail("")
    requires Accepted(RegisterIssues(v, f))
    ensures Accepted(LoginIssues(LoginValues(v.email, v.password), f))
  {
    RegisterAcceptedIff(v, f);
    LoginAcceptedIff(LoginValues(v.email, v.password), f);
  }

  // ---------------------------------------------------------------- product

  /** Product form values after Zod's number coercion of price and stock. */
  datatype ProductValues = ProductValues(
    name: string,
    description: string,
    price: real,
    stock: real,
    imageUrl: Option<string>,
    category: string)

  /** An optional URL that may also be the empty string. */
  predicate ImageUrlValid(u: Option<string>, f: Formats) {
    match u
    case None => true
    case Some(s) => f.isUrl(s) || s == ""
  }

  function ProductIssues(v: ProductValues, f: Formats): (r: set<Issue>)
    ensures Issue(Name, TooShort) in r <==> |v.name| < 3
    ensures Issue(Description, TooShort) in r <==> |v.description| < 10
    ensures Issue(Price, NotPositive) in r <==> v.price <= 0.0
    ensures Issue(Stock, NotInteger) in r <==> !IsInteger(v.stock)
    ensures Issue(Stock, Negative) in r <==> v.stock < 0.0
    ensures Issue(Category, Required) in r <==> v.category == ""
    ensures Issue(ImageUrl, BadFormat) in r <==> !(v.imageUrl.None? || v.imageUrl.value == "" || f.isUrl(v.imageUrl.value))
  {
    Check(|v.name| >= 3, Issue(Name, TooShort))
    + Check(|v.description| >= 10, Issue(Description, TooShort))
    + Check(v.price > 0.0, Issue(Price, NotPositive))
    + Check(IsInteger(v.stock), Issue(Stock, NotInteger))
    + Check(v.stock >= 0.0, Issue(Stock, Negative))
    + Check(ImageUrlValid(v.imageUrl, f), Issue(ImageUrl, BadFormat))
    + Check(|v.category| >= 1, Issue(Category, Required))
  }

  /** The product form accepts exactly the values meeting all seven field rules. */
  lemma ProductAcceptedIff(v: ProductValues, f: Formats)
    ensures Accepted(ProductIssues(v, f))
        <==> && |v.name| >= 3 && |v.description| >= 10 && v.price > 0.0
             && IsInteger(v.stock) && v.stock >= 0.0 && v.category != ""
             && (v.imageUrl.None? || v.imageUrl.value == "" || f.isUrl(v.imageUrl.value))
  {
    var r := ProductIssues(v, f);
    if |v.name| < 3 { assert Issue(Name, TooShort) in r; }
    else if |v.description| < 10 { assert Issue(Description, TooShort) in r; }
    else if v.price <= 0.0 { assert Issue(Price, NotPositive) in r; }
    else if !IsInteger(v.stock) { assert Issue(Stock, NotInteger) in r; }
    else if v.stock < 0.0 { assert Issue(Stock, Negative) in r; }
    else if v.category == "" { assert Issue(Category, Required) in r; }
    else if !ImageUrlValid(v.imageUrl, f) { assert Issue(ImageUrl, BadFormat) in r; }
  }

  // ---------------------------------------------------------------- create order

  datatype ItemValues = ItemValues(productId: string, quantity: real)

  function CreateOrderIssues(items: seq<ItemValues>, f: Formats): (r: set<Issue>)
    ensures Issue(Items, TooShort) in r <==> |items| == 0
    ensures forall i :: 0 <= i < |items| ==>
              (Issue(ItemProductId(i), BadFormat) in r <==> !f.isUuid(items[i].productId))
    ensures forall i :: 0 <= i < |items| ==>
              (Issue(ItemQuantity(i), NotInteger) in r <==> !IsInteger(items[i].quantity))
    ensures forall i :: 0 <= i < |items| ==>
              (Issue(ItemQuantity(i), NotPositive) in r <==> items[i].quantity <= 0.0)
    ensures forall x :: x in r ==>
              x.field == Items || ((x.field.ItemProductId? || x.field.ItemQuantity?) && x.field.index < |items|)
  {
    Check(|items| >= 1, Issue(Items, TooShort))
    + (set i | 0 <= i < |items| && !f.isUuid(items[i].productId) :: Issue(ItemProductId(i), BadFormat))
    + (set i | 0 <= i < |items| && !IsInteger(items[i].quantity) :: Issue(ItemQuantity(i), NotInteger))
    + (set i | 0 <= i < |items| && items[i].quantity <= 0.0 :: Issue(ItemQuantity(i), NotPositive))
  }

  /** An order is accepted exactly when it has an item and every item has a UUID and a positive whole quantity. */
  lemma CreateOrderAcceptedIff(items: seq<ItemValues>, f: Formats)
    ensures Accepted(CreateOrderIssues(items, f))
        <==> |items| >= 1
             && forall i :: 0 <= i < |items| ==>
                  f.isUuid(items[i].productId) && IsInteger(items[i].quantity) && items[i].quantity > 0.0
  {
    var r := CreateOrderIssues(items, f);
    if !Accepted(r) && |items| >= 1 {
      var x :| x in r;
      assert x.field != Items;
      assert x.field.ItemProductId? || x.field.ItemQuantity?;
      var i := x.field.index;
      assert 0 <= i < |items|;
      assert !(f.isUuid(items[i].productId) && IsInteger(items[i].quantity) && items[i].quantity > 0.0);
    }
    if Accepted(r) {
      forall i | 0 <= i < |items|
        ensures f.isUuid(items[i].productId) && IsInteger(items[i].quantity) && items[i].quantity > 0.0
      {
        assert Issue(ItemProductId(i), BadFormat) !in r;
        assert Issue(ItemQuantity(i), NotInteger) !in r;
        assert Issue(ItemQuantity(i), NotPositive) !in r;
      }
    }
  }
}
