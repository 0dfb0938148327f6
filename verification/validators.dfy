/** The input schemas of lib/validators.ts as functions from a record to the
    list of issues the schema library reports, in the order it reports them
    (object fields in declaration order, each field's checks in order, then
    object-level refinements). A record is accepted when the list is empty.

    Prices are modelled by the amount they denote, in whole cents: the
    `currency` refinement parses the text with `Number`, formats it with
    `formatNumberWithDecimal` (an en-US `Intl.NumberFormat` with exactly two
    fraction digits) and matches the result against `^\d+(\.\d{2})?$`. */
module Validators {
  import opened Common
  import opened Strings

  datatype Issue = Issue(path: seq<string>, message: string)

  function MinLength(field: string, s: string, n: nat, message: string): seq<Issue> {
    if |s| >= n then [] else [Issue([field], message)]
  }

  /* ---------------------------------------------------------------------- */
  /* The currency pattern                                                   */
  /* ---------------------------------------------------------------------- */

  /** `^\d+(\.\d{2})?$`: one or more ASCII digits, optionally followed by a
      dot and exactly two digits. */
  predicate CurrencyShape(s: string) {
    || (|s| >= 1 && AllDigits(s))
    || (|s| >= 4 && AllDigits(s[..|s| - 3]) && s[|s| - 3] == '.' && AllDigits(s[|s| - 2..]))
  }

  /** The pattern matched by a left-to-right scan, as a regular-expression
      engine runs it: the longest run of leading digits, then either the end
      or a dot and two final digits. */
  method MatchCurrency(s: string) returns (ok: bool)
    ensures ok <==> CurrencyShape(s)
  {
    var i := 0;
    while i < |s| && IsDigit(s[i])
      invariant 0 <= i <= |s|
      invariant AllDigits(s[..i])
    {
      i := i + 1;
    }
    ScanDecides(s, i);
    ok := i > 0 && (i == |s| || (s[i] == '.' && |s| == i + 3 && IsDigit(s[i + 1]) && IsDigit(s[i + 2])));
  }

  /** Once the leading run of digits `s[..i]` is known, the pattern is
      decided by what follows it. */
  lemma ScanDecides(s: string, i: nat)
    requires i <= |s| && AllDigits(s[..i]) && (i == |s| || !IsDigit(s[i]))
    ensures CurrencyShape(s) <==>
              i > 0 && (i == |s| || (s[i] == '.' && |s| == i + 3 && IsDigit(s[i + 1]) && IsDigit(s[i + 2])))
  {
    if i == |s| {
      assert s[..i] == s;
      if i == 0 {
        assert !CurrencyShape(s);
      }
    } else {
      assert !AllDigits(s);
      if i > 0 && s[i] == '.' && |s| == i + 3 && IsDigit(s[i + 1]) && IsDigit(s[i + 2]) {
        assert s[..|s| - 3] == s[..i];
        assert s[|s| - 2..] == [s[i + 1], s[i + 2]];
      }
      if |s| >= 4 && AllDigits(s[..|s| - 3]) && s[|s| - 3] == '.' && AllDigits(s[|s| - 2..]) {
        // the first non-digit is the dot three places from the end
        assert i == |s| - 3;
        assert s[|s| - 2..][0] == s[i + 1];
        assert s[|s| - 2..][1] == s[i + 2];
      }
    }
  }

  /* ---------------------------------------------------------------------- */
  /* Number formatting: as written (grouped) and corrected (ungrouped)      */
  /* ---------------------------------------------------------------------- */

  function TwoDigits(n: nat): (s: string)
    requires n < 100
    ensures |s| == 2 && AllDigits(s)
  {
    [DigitChar(n / 10), DigitChar(n % 10)]
  }

  function ThreeDigits(n: nat): (s: string)
    requires n < 1000
    ensures |s| == 3 && AllDigits(s)
  {
    [DigitChar(n / 100), DigitChar(n / 10 % 10), DigitChar(n % 10)]
  }

  /** The integer part as en-US `Intl.NumberFormat` prints it: groups of
      three digits separated by commas. */
  function Grouped(n: nat): (s: string)
    ensures |s| >= 1
    ensures n < 1000 ==> s == NatToString(n)
    ensures n >= 1000 ==> exists k :: 0 <= k < |s| && s[k] == ','
    decreases n
  {
    if n < 1000 then NatToString(n)
    else
      var head := Grouped(n / 1000);
      var s := head + "," + ThreeDigits(n % 1000);
      assert s[|head|] == ',';
      s
  }

  /** `formatNumberWithDecimal(cents / 100)` as written. */
  function IntlFormatCents(cents: int): string {
    var a := if cents < 0 then -cents else cents;
    (if cents < 0 then "-" else "") + Grouped(a / 100) + "." + TwoDigits(a % 100)
  }

  /** The same formatting without digit grouping. */
  function PlainFormatCents(cents: int): string {
    var a := if cents < 0 then -cents else cents;
    (if cents < 0 then "-" else "") + NatToString(a / 100) + "." + TwoDigits(a % 100)
  }

  lemma FormattedShape(sign: string, whole: string, frac: string)
    requires sign == "" || sign == "-"
    requires |whole| >= 1 && |frac| == 2 && AllDigits(frac)
    ensures var s := sign + whole + "." + frac;
            CurrencyShape(s) <==> sign == "" && AllDigits(whole)
  {
    var s := sign + whole + "." + frac;
    assert s[..|s| - 3] == sign + whole;
    assert s[|s| - 3] == '.';
    assert s[|s| - 2..] == frac;
    assert !AllDigits(s) by { assert s[|s| - 3] == '.'; }
    if sign == "-" { assert (sign + whole)[0] == '-'; }
    if sign == "" && !AllDigits(whole) {
      var k :| 0 <= k < |whole| && !IsDigit(whole[k]);
      assert (sign + whole)[k] == whole[k];
    }
    if sign == "" && AllDigits(whole) { assert sign + whole == whole; }
  }

  /** The `currency` refinement as written: the formatted amount must match
      the pattern. Because the formatter groups thousands, exactly the
      amounts from 0.00 to 999.99 pass. */
  function PriceRefineAsWritten(cents: int): (ok: bool)
    ensures ok <==> 0 <= cents < 100000
  {
    IntlShape(cents);
    CurrencyShape(IntlFormatCents(cents))
  }

  lemma IntlShape(cents: int)
    ensures CurrencyShape(IntlFormatCents(cents)) <==> 0 <= cents < 100000
  {
    var a := if cents < 0 then -cents else cents;
    var sign := if cents < 0 then "-" else "";
    assert IntlFormatCents(cents) == sign + Grouped(a / 100) + "." + TwoDigits(a % 100);
    FormattedShape(sign, Grouped(a / 100), TwoDigits(a % 100));
    GroupedDigits(a / 100);
    assert a / 100 < 1000 <==> a < 100000;
  }

  /** The grouped integer part is all digits exactly below one thousand. */
  lemma GroupedDigits(n: nat)
    ensures AllDigits(Grouped(n)) <==> n < 1000
  {
    if n >= 1000 {
      var g := Grouped(n);
      var k :| 0 <= k < |g| && g[k] == ',';
      assert !IsDigit(g[k]);
    }
  }

  /** A price of 1000.00 is refused by the refinement as written: it is
      formatted as "1,000.00", which the pattern does not match. */
  lemma PriceRefineAsWrittenRejectsThousand()
    ensures !PriceRefineAsWritten(100000)
    ensures !CurrencyShape("1,000.00")
  {
    assert "1,000.00"[..5][1] == ',';
  }

  /** The refinement the message describes ("exactly two decimal places"):
      every non-negative amount of whole cents passes, negative ones do not. */
  function PriceRefine(cents: int): (ok: bool)
    ensures ok <==> cents >= 0
  {
    PlainShape(cents);
    CurrencyShape(PlainFormatCents(cents))
  }

  lemma PlainShape(cents: int)
    ensures CurrencyShape(PlainFormatCents(cents)) <==> cents >= 0
  {
    var a := if cents < 0 then -cents else cents;
    var sign := if cents < 0 then "-" else "";
    assert PlainFormatCents(cents) == sign + NatToString(a / 100) + "." + TwoDigits(a % 100);
    FormattedShape(sign, NatToString(a / 100), TwoDigits(a % 100));
  }

  function PriceIssues(field: string, cents: int): (issues: seq<Issue>)
    ensures issues == [] <==> cents >= 0
    ensures cents < 0 ==> issues == [Issue([field], "Price must have exactly two decimal places")]
  {
    if PriceRefine(cents) then [] else [Issue([field], "Price must have exactly two decimal places")]
  }

  /* ---------------------------------------------------------------------- */
  /* Products                                                               */
  /* ---------------------------------------------------------------------- */

  /** The parsed fields of a product form (`stock` already a number). */
  datatype ProductInput = ProductInput(
    name: string, slug: string, category: string, brand: string, description: string,
    stock: int, images: seq<string>, isFeatured: bool, banner: Option<string>, price: int)

  /** `insertProductSchema`. */
  function ProductIssues(p: ProductInput): (issues: seq<Issue>)
    ensures |issues| == 0 <==>
              && |p.name| >= 3 && |p.slug| >= 3 && |p.category| >= 3 && |p.brand| >= 1
              && |p.description| >= 3 && |p.images| >= 1 && p.price >= 0
  {
    MinLength("name", p.name, 3, "Name must be at least 3 characters.")
    + MinLength("slug", p.slug, 3, "Slug must be at least 3 characters.")
    + MinLength("category", p.category, 3, "Category must be at least 3 characters.")
    + MinLength("brand", p.brand, 1, "Brand cannot be empty.")
    + MinLength("description", p.description, 3, "Description must be at least 3 characters.")
    + (if |p.images| >= 1 then [] else [Issue(["images"], "Product must have at least one image.")])
    + PriceIssues("price", p.price)
  }

  /* ---------------------------------------------------------------------- */
  /* Sign-in and sign-up                                                    */
  /* ---------------------------------------------------------------------- */

  /** `SignInFormSchema`. `isEmail` is the library's email-format test. */
  function SignInIssues(email: string, password: string, isEmail: string -> bool): (issues: seq<Issue>)
    ensures |issues| == 0 <==> isEmail(email) && |password| >= 1
  {
    (if isEmail(email) then [] else [Issue(["email"], "Invalid email address")])
    + MinLength("password", password, 1, "Password is required")
  }

  datatype SignUpForm = SignUpForm(name: string, email: string, password: string, confirmPassword: string)

  const ShortPassword := "Password must be at least six characters"
  const Mismatch := "Passwords don't match!"

  /** `SignUpFormSchema`: the four field checks, then the refinement that the
      passwords agree, reported on the `confirmPassword` path. The
      refinement runs even when a field check failed, since every field is a
      string (the library only skips refinements after a type error). */
  function SignUpIssues(f: SignUpForm, isEmail: string -> bool): (issues: seq<Issue>)
    ensures |issues| == 0 <==>
              |f.name| >= 2 && isEmail(f.email) && |f.password| >= 6 && |f.confirmPassword| >= 6
              && f.password == f.confirmPassword
  {
    MinLength("name", f.name, 2, "Name must be at least two characters")
    + (if isEmail(f.email) then [] else [Issue(["email"], "Invalid email address")])
    + MinLength("password", f.password, 6, ShortPassword)
    + MinLength("confirmPassword", f.confirmPassword, 6, ShortPassword)
    + (if f.password == f.confirmPassword then [] else [Issue(["confirmPassword"], Mismatch)])
  }

  /** `error.format().<field>?._errors[0] || ""`. */
  function FirstError(issues: seq<Issue>, field: string): (m: string)
    // no issue on the field: no message
    ensures Avoids(issues, field) ==> m == ""
    // otherwise the message of the earliest issue on the field
    ensures !Avoids(issues, field) ==>
              exists i :: 0 <= i < |issues| && issues[i].path == [field] && Avoids(issues[..i], field)
                          && m == issues[i].message
    decreases |issues|
  {
    if |issues| == 0 then ""
    else if issues[0].path == [field] then
      assert issues[..0] == [];
      issues[0].message
    else
      var m := FirstError(issues[1..], field);
      assert !Avoids(issues, field) ==> !Avoids(issues[1..], field) by {
        if !Avoids(issues, field) {
          var k :| 0 <= k < |issues| && issues[k].path == [field];
          assert issues[1..][k - 1] == issues[k];
        }
      }
      assert !Avoids(issues[1..], field) ==>
               exists i :: 0 <= i < |issues| && issues[i].path == [field] && Avoids(issues[..i], field) && m == issues[i].message
      by {
        if !Avoids(issues[1..], field) {
          var i :| 0 <= i < |issues[1..]| && issues[1..][i].path == [field] && Avoids(issues[1..][..i], field)
                   && m == issues[1..][i].message;
          assert issues[..i + 1] == [issues[0]] + issues[1..][..i];
          assert Avoids(issues[..i + 1], field);
        }
      }
      m
  }

  lemma {:induction false} FirstErrorAppend(a: seq<Issue>, b: seq<Issue>, field: string)
    ensures FirstError(a + b, field) ==
              if Avoids(a, field) then FirstError(b, field) else FirstError(a, field)
    decreases |a|
  {
    if |a| > 0 {
      assert (a + b)[1..] == a[1..] + b;
      FirstErrorAppend(a[1..], b, field);
      if a[0].path != [field] {
        assert forall k :: 1 <= k < |a| ==> a[k] == a[1..][k - 1];
      }
    } else {
      assert a + b == b;
    }
  }

  datatype FieldErrors = FieldErrors(name: string, email: string, password: string, confirmPassword: string)

  /** The per-field messages `signUpUser` returns for a rejected form: a
      field's own check's message when that check fails, for
      `confirmPassword` otherwise the mismatch message, and "" for a field
      with no problem. */
  function SignUpErrors(f: SignUpForm, isEmail: string -> bool): (e: FieldErrors)
    ensures e.name == (if |f.name| >= 2 then "" else "Name must be at least two characters")
    ensures e.email == (if isEmail(f.email) then "" else "Invalid email address")
    ensures e.password == (if |f.password| >= 6 then "" else ShortPassword)
    ensures e.confirmPassword == (if |f.confirmPassword| < 6 then ShortPassword
                                  else if f.password != f.confirmPassword then Mismatch else "")
  {
    var issues := SignUpIssues(f, isEmail);
    SignUpNameError(f, isEmail);
    SignUpEmailError(f, isEmail);
    SignUpPasswordError(f, isEmail);
    SignUpConfirmError(f, isEmail);
    FieldErrors(FirstError(issues, "name"), FirstError(issues, "email"),
                FirstError(issues, "password"), FirstError(issues, "confirmPassword"))
  }

  lemma FieldPathsDistinct()
    ensures ["name"] != ["email"] && ["name"] != ["password"] && ["name"] != ["confirmPassword"]
    ensures ["email"] != ["password"] && ["email"] != ["confirmPassword"] && ["password"] != ["confirmPassword"]
  {
    assert "name"[0] == 'n' && "email"[0] == 'e' && "password"[0] == 'p' && "confirmPassword"[0] == 'c';
  }

  lemma SignUpNameError(f: SignUpForm, isEmail: string -> bool)
    ensures FirstError(SignUpIssues(f, isEmail), "name") ==
              if |f.name| >= 2 then "" else "Name must be at least two characters"
  {
    FieldPathsDistinct();
    var a := MinLength("name", f.name, 2, "Name must be at least two characters");
    var b := if isEmail(f.email) then [] else [Issue(["email"], "Invalid email address")];
    var c := MinLength("password", f.password, 6, ShortPassword);
    var d := MinLength("confirmPassword", f.confirmPassword, 6, ShortPassword);
    var r := if f.password == f.confirmPassword then [] else [Issue(["confirmPassword"], Mismatch)];
    var rest := b + c + d + r;
    assert SignUpIssues(f, isEmail) == a + rest;
    assert Avoids(b, "name") && Avoids(c, "name") && Avoids(d, "name") && Avoids(r, "name");
    AvoidsAppend(b, c, "name");
    AvoidsAppend(b + c, d, "name");
    AvoidsAppend(b + c + d, r, "name");
    NameError(a, rest);
  }

  lemma SignUpEmailError(f: SignUpForm, isEmail: string -> bool)
    ensures FirstError(SignUpIssues(f, isEmail), "email") ==
              if isEmail(f.email) then "" else "Invalid email address"
  {
    FieldPathsDistinct();
    var a := MinLength("name", f.name, 2, "Name must be at least two characters");
    var b := if isEmail(f.email) then [] else [Issue(["email"], "Invalid email address")];
    var c := MinLength("password", f.password, 6, ShortPassword);
    var d := MinLength("confirmPassword", f.confirmPassword, 6, ShortPassword);
    var r := if f.password == f.confirmPassword then [] else [Issue(["confirmPassword"], Mismatch)];
    assert SignUpIssues(f, isEmail) == a + (b + (c + d + r));
    EmailError(a, b, c + d + r);
  }

  lemma SignUpPasswordError(f: SignUpForm, isEmail: string -> bool)
    ensures FirstError(SignUpIssues(f, isEmail), "password") ==
              if |f.password| >= 6 then "" else ShortPassword
  {
    FieldPathsDistinct();
    var a := MinLength("name", f.name, 2, "Name must be at least two characters");
    var b := if isEmail(f.email) then [] else [Issue(["email"], "Invalid email address")];
    var c := MinLength("password", f.password, 6, ShortPassword);
    var d := MinLength("confirmPassword", f.confirmPassword, 6, ShortPassword);
    var r := if f.password == f.confirmPassword then [] else [Issue(["confirmPassword"], Mismatch)];
    assert SignUpIssues(f, isEmail) == (a + b) + (c + (d + r));
    PasswordError(a + b, c, d + r);
  }

  lemma SignUpConfirmError(f: SignUpForm, isEmail: string -> bool)
    ensures FirstError(SignUpIssues(f, isEmail), "confirmPassword") ==
              if |f.confirmPassword| < 6 then ShortPassword
              else if f.password != f.confirmPassword then Mismatch else ""
  {
    FieldPathsDistinct();
    var a := MinLength("name", f.name, 2, "Name must be at least two characters");
    var b := if isEmail(f.email) then [] else [Issue(["email"], "Invalid email address")];
    var c := MinLength("password", f.password, 6, ShortPassword);
    var d := MinLength("confirmPassword", f.confirmPassword, 6, ShortPassword);
    var r := if f.password == f.confirmPassword then [] else [Issue(["confirmPassword"], Mismatch)];
    assert SignUpIssues(f, isEmail) == (a + b + c) + (d + r);
    ConfirmError(a + b + c, d, r);
  }

  predicate OnlyAt(issues: seq<Issue>, field: string) {
    forall k :: 0 <= k < |issues| ==> issues[k].path == [field]
  }

  /** No issue of the list is reported on `field`. */
  predicate Avoids(issues: seq<Issue>, field: string) {
    forall k :: 0 <= k < |issues| ==> issues[k].path != [field]
  }

  lemma AvoidsAppend(x: seq<Issue>, y: seq<Issue>, field: string)
    requires Avoids(x, field) && Avoids(y, field)
    ensures Avoids(x + y, field)
  {
    forall k | 0 <= k < |x + y| ensures (x + y)[k].path != [field] {
      if k >= |x| {
        assert (x + y)[k] == y[k - |x|];
      }
    }
  }

  lemma NameError(a: seq<Issue>, rest: seq<Issue>)
    requires OnlyAt(a, "name") && |a| <= 1
    requires Avoids(rest, "name")
    ensures FirstError(a + rest, "name") == if |a| == 1 then a[0].message else ""
  {
    FirstErrorAppend(a, rest, "name");
    FirstErrorNone(rest, "name");
  }

  lemma EmailError(a: seq<Issue>, b: seq<Issue>, rest: seq<Issue>)
    requires OnlyAt(a, "name") && OnlyAt(b, "email") && |b| <= 1
    requires Avoids(rest, "email")
    ensures FirstError(a + (b + rest), "email") == if |b| == 1 then b[0].message else ""
  {
    assert ["name"] != ["email"] by { assert ["name"][0][0] != ["email"][0][0]; }
    FirstErrorAppend(a, b + rest, "email");
    FirstErrorAppend(b, rest, "email");
    FirstErrorNone(rest, "email");
  }

  lemma PasswordError(a: seq<Issue>, c: seq<Issue>, rest: seq<Issue>)
    requires Avoids(a, "password")
    requires OnlyAt(c, "password") && |c| <= 1
    requires OnlyAt(rest, "confirmPassword")
    ensures FirstError(a + (c + rest), "password") == if |c| == 1 then c[0].message else ""
  {
    assert ["confirmPassword"] != ["password"] by { assert ["confirmPassword"][0][0] != ["password"][0][0]; }
    FirstErrorAppend(a, c + rest, "password");
    FirstErrorAppend(c, rest, "password");
    FirstErrorNone(rest, "password");
  }

  lemma ConfirmError(a: seq<Issue>, d: seq<Issue>, r: seq<Issue>)
    requires Avoids(a, "confirmPassword")
    requires OnlyAt(d, "confirmPassword") && |d| <= 1 && OnlyAt(r, "confirmPassword") && |r| <= 1
    ensures FirstError(a + (d + r), "confirmPassword") ==
              if |d| == 1 then d[0].message else if |r| == 1 then r[0].message else ""
  {
    FirstErrorAppend(a, d + r, "confirmPassword");
    FirstErrorAppend(d, r, "confirmPassword");
    FirstErrorAppend(r, [], "confirmPassword");
    assert r + [] == r;
  }

  lemma {:induction false} FirstErrorNone(issues: seq<Issue>, field: string)
    requires Avoids(issues, field)
    ensures FirstError(issues, field) == ""
    decreases |issues|
  {
    if |issues| > 0 {
      FirstErrorNone(issues[1..], field);
    }
  }

  /* ---------------------------------------------------------------------- */
  /* Carts                                                                  */
  /* ---------------------------------------------------------------------- */

  /** A cart line as submitted; `qnty` is a JavaScript number. */
  datatype CartItemInput = CartItemInput(productId: string, name: string, slug: string, qnty: real, image: string, price: int)

  predicate IsInteger(x: real) {
    x.Floor as real == x
  }

  /** `cartItemSchema`. */
  function CartItemIssues(item: CartItemInput): (issues: seq<Issue>)
    ensures |issues| == 0 <==>
              && |item.productId| >= 1 && |item.name| >= 1 && |item.slug| >= 1 && |item.image| >= 1
              && IsInteger(item.qnty) && item.qnty >= 0.0 && item.price >= 0
  {
    MinLength("productId", item.productId, 1, "Product is required")
    + MinLength("name", item.name, 1, "Name is required")
    + MinLength("slug", item.slug, 1, "Slug is required")
    + (if IsInteger(item.qnty) then [] else [Issue(["qnty"], "Expected integer, received float")])
    + (if item.qnty >= 0.0 then [] else [Issue(["qnty"], "Quantity must be a positive number")])
    + MinLength("image", item.image, 1, "Image is required")
    + PriceIssues("price", item.price)
  }

  /** The issues of the cart lines from index `from` on, each under the path
      `items.<index>`. An issue path is a list of texts here, so the array
      index, a number in the schema library's path, is written as its
      decimal text. */
  function ItemsIssues(items: seq<CartItemInput>, from: nat): (issues: seq<Issue>)
    requires from <= |items|
    ensures |issues| == 0 <==> forall k :: from <= k < |items| ==> |CartItemIssues(items[k])| == 0
    decreases |items| - from
  {
    if from == |items| then []
    else
      var own := CartItemIssues(items[from]);
      seq(|own|, j requires 0 <= j < |own| => Issue(["items", NatToString(from)] + own[j].path, own[j].message))
      + ItemsIssues(items, from + 1)
  }

  /** A cart as submitted. `id` is optional; `userId` is optional and nullable
      and so accepts anything. */
  datatype CartInput = CartInput(
    id: Option<string>, items: seq<CartItemInput>,
    price: int, totalPrice: int, shippingPrice: int, taxPrice: int,
    sessionCartId: string, userId: Option<string>)

  /** `insertCartSchema`. */
  function CartIssues(c: CartInput): (issues: seq<Issue>)
    ensures |issues| == 0 <==>
              && (forall k :: 0 <= k < |c.items| ==> |CartItemIssues(c.items[k])| == 0)
              && c.price >= 0 && c.totalPrice >= 0 && c.shippingPrice >= 0 && c.taxPrice >= 0
              && |c.sessionCartId| >= 1
  {
    ItemsIssues(c.items, 0)
    + PriceIssues("price", c.price)
    + PriceIssues("totalPrice", c.totalPrice)
    + PriceIssues("shippingPrice", c.shippingPrice)
    + PriceIssues("taxPrice", c.taxPrice)
    + MinLength("sessionCartId", c.sessionCartId, 1, "Session cart id is required")
  }
}
