/** The Ubermelon storefront's session logic: the cart kept in the session
    and the login/logout decisions. Pages and redirects are returned as
    plain values; the catalog and the customer store are parameters. */
module ShoppingSite {
  import opened Wrappers
  import opened Customers
  import opened PyStrings

  /** What the cart page uses of a catalog entry. Prices are in cents. */
  datatype Melon = Melon(commonName: string, price: int)

  /** One row of the cart page: how many of a melon, its name and unit price. */
  datatype LineItem = LineItem(quantity: nat, name: string, price: int)

  /** What a route answers with: a rendered template or a redirect. */
  datatype Page = Template(name: string) | Redirect(path: string)

  /** A route's answer together with the flash message it queues, if any. */
  datatype Response = Response(flash: Option<string>, page: Page)

  /** The three outcomes of checking a login form against the customer store. */
  datatype LoginVerdict = Accepted | IncorrectPassword | NoSuchEmail

  /** Every id in the cart has a catalog entry; the cart page looks each one
      up and fails on an unknown id. */
  predicate InCatalog(cart: seq<int>, catalog: map<int, Melon>) {
    forall k :: 0 <= k < |cart| ==> cart[k] in catalog
  }

  /** The price of the whole cart, entry by entry. */
  function CartTotal(cart: seq<int>, catalog: map<int, Melon>): int
    requires InCatalog(cart, catalog)
  {
    if cart == [] then 0
    else
      var n := |cart| - 1;
      CartTotal(cart[..n], catalog) + catalog[cart[n]].price
  }

  /** The price of the cart's entries whose id is in `ids`. */
  function PartTotal(cart: seq<int>, ids: set<int>, catalog: map<int, Melon>): int
    requires InCatalog(cart, catalog)
  {
    if cart == [] then 0
    else
      var n := |cart| - 1;
      PartTotal(cart[..n], ids, catalog) + if cart[n] in ids then catalog[cart[n]].price else 0
  }

  /** Taking one more id into account adds its quantity times its price. */
  lemma {:induction false} PartTotalAdd(cart: seq<int>, ids: set<int>, id: int, catalog: map<int, Melon>)
    requires InCatalog(cart, catalog) && id in catalog && id !in ids
    ensures PartTotal(cart, ids + {id}, catalog)
            == PartTotal(cart, ids, catalog) + multiset(cart)[id] * catalog[id].price
  {
    if cart != [] {
      var n := |cart| - 1;
      var prefix := cart[..n];
      PartTotalAdd(prefix, ids, id, catalog);
      assert cart == prefix + [cart[n]];
      var m := multiset(prefix)[id];
      var p := catalog[id].price;
      if cart[n] == id {
        assert multiset(cart)[id] == m + 1;
        assert (m + 1) * p == m * p + p;
      } else {
        assert multiset(cart)[id] == m;
      }
    }
  }

  /** Taking no id into account gives nothing. */
  lemma {:induction false} PartTotalNone(cart: seq<int>, catalog: map<int, Melon>)
    requires InCatalog(cart, catalog)
    ensures PartTotal(cart, {}, catalog) == 0
  {
    if cart != [] {
      PartTotalNone(cart[..|cart| - 1], catalog);
    }
  }

  /** Taking every id of the cart into account gives the whole total. */
  lemma {:induction false} PartTotalAll(cart: seq<int>, ids: set<int>, catalog: map<int, Melon>)
    requires InCatalog(cart, catalog)
    requires forall k :: 0 <= k < |cart| ==> cart[k] in ids
    ensures PartTotal(cart, ids, catalog) == CartTotal(cart, catalog)
  {
    if cart != [] {
      PartTotalAll(cart[..|cart| - 1], ids, catalog);
    }
  }

  /** The total of two carts one after the other is the sum of their totals. */
  lemma {:induction false} CartTotalConcat(a: seq<int>, b: seq<int>, catalog: map<int, Melon>)
    requires InCatalog(a, catalog) && InCatalog(b, catalog)
    ensures InCatalog(a + b, catalog)
    ensures CartTotal(a + b, catalog) == CartTotal(a, catalog) + CartTotal(b, catalog)
  {
    if b != [] {
      var n := |b| - 1;
      CartTotalConcat(a, b[..n], catalog);
      assert (a + b)[..|a + b| - 1] == a + b[..n];
    } else {
      assert a + b == a;
    }
  }

  /** Adding a melon to the cart raises its total by that melon's price. */
  lemma CartTotalAppend(cart: seq<int>, id: int, catalog: map<int, Melon>)
    requires InCatalog(cart, catalog) && id in catalog
    ensures InCatalog(cart + [id], catalog)
    ensures CartTotal(cart + [id], catalog) == CartTotal(cart, catalog) + catalog[id].price
  {
  }

  /** The cart page's line items: one per distinct id in the cart, with its
      count in the cart and the catalog's name and price. */
  function Summary(cart: seq<int>, catalog: map<int, Melon>): map<int, LineItem>
    requires InCatalog(cart, catalog)
  {
    map id | id in cart :: LineItem(multiset(cart)[id], catalog[id].commonName, catalog[id].price)
  }

  /** Adding `id` to the cart adds one unit to its line (a new line of
      quantity one if it had none), leaves every other line as it was, and
      raises the total by its price. */
  lemma SummaryAfterAdd(cart: seq<int>, id: int, catalog: map<int, Melon>)
    requires InCatalog(cart, catalog) && id in catalog
    ensures InCatalog(cart + [id], catalog)
    ensures Summary(cart + [id], catalog).Keys == Summary(cart, catalog).Keys + {id}
    ensures Summary(cart + [id], catalog)[id]
            == LineItem(multiset(cart)[id] + 1, catalog[id].commonName, catalog[id].price)
    ensures forall x :: x in Summary(cart, catalog) && x != id ==>
              Summary(cart + [id], catalog)[x] == Summary(cart, catalog)[x]
    ensures CartTotal(cart + [id], catalog) == CartTotal(cart, catalog) + catalog[id].price
  {
    CartTotalAppend(cart, id, catalog);
    var after := cart + [id];
    assert multiset(after) == multiset(cart) + multiset{id};
    forall x ensures x in after <==> x in cart || x == id {
      if x in after && x != id {
        var k :| 0 <= k < |after| && after[k] == x;
        assert k < |cart| && cart[k] == x;
      }
      if x in cart {
        var k :| 0 <= k < |cart| && cart[k] == x;
        assert after[k] == x;
      }
      assert after[|cart|] == id;
    }
  }

  /** Taking out the entry at `k` lowers the total by that entry's price. */
  lemma CartTotalRemove(cart: seq<int>, k: nat, catalog: map<int, Melon>)
    requires InCatalog(cart, catalog) && k < |cart|
    ensures InCatalog(cart[..k] + cart[k + 1..], catalog)
    ensures CartTotal(cart, catalog) == CartTotal(cart[..k] + cart[k + 1..], catalog) + catalog[cart[k]].price
  {
    var before, x, after := cart[..k], cart[k], cart[k + 1..];
    assert cart == before + [x] + after;
    CartTotalConcat(before, after, catalog);
    CartTotalConcat(before, [x], catalog);
    CartTotalConcat(before + [x], after, catalog);
    assert CartTotal([x], catalog) == catalog[x].price by {
      assert [x][..0] == [];
    }
  }

  /** Carts with the same ids, counted with multiplicity, are both in the
      catalog or both not. */
  lemma InCatalogPermutation(a: seq<int>, b: seq<int>, catalog: map<int, Melon>)
    requires multiset(a) == multiset(b) && InCatalog(a, catalog)
    ensures InCatalog(b, catalog)
  {
    forall k | 0 <= k < |b| ensures b[k] in catalog {
      assert b[k] in multiset(a);
      var j :| 0 <= j < |a| && a[j] == b[k];
    }
  }

  /** The total depends only on which ids the cart holds and how often, not
      on the order in which they were added. */
  lemma {:induction false} CartTotalPermutation(a: seq<int>, b: seq<int>, catalog: map<int, Melon>)
    requires multiset(a) == multiset(b) && InCatalog(a, catalog)
    ensures InCatalog(b, catalog)
    ensures CartTotal(a, catalog) == CartTotal(b, catalog)
  {
    InCatalogPermutation(a, b, catalog);
    if a != [] {
      var n := |a| - 1;
      var x := a[n];
      assert x in multiset(b);
      var k :| 0 <= k < |b| && b[k] == x;
      MultisetRemove(a, n);
      MultisetRemove(b, k);
      assert a[..n] + a[n + 1..] == a[..n];
      CartTotalRemove(b, k, catalog);
      CartTotalPermutation(a[..n], b[..k] + b[k + 1..], catalog);
    }
  }

  /** Taking out the entry at `k` takes one copy of it out of the multiset. */
  lemma MultisetRemove(s: seq<int>, k: nat)
    requires k < |s|
    ensures multiset(s[..k] + s[k + 1..]) == multiset(s) - multiset{s[k]}
  {
    assert s == s[..k] + [s[k]] + s[k + 1..];
  }

  /** The login decision of `process_login`: the email must be a known key
      and the password must equal the stored one exactly. */
  function CheckCredentials(customers: map<string, Customer>, email: Option<string>, password: Option<string>): (v: LoginVerdict)
    ensures v == Accepted <==>
              email.Some? && email.value in customers && password == Some(customers[email.value].pw)
    ensures v == IncorrectPassword <==>
              email.Some? && email.value in customers && password != Some(customers[email.value].pw)
    ensures v == NoSuchEmail <==> email.None? || email.value !in customers
  {
    if email.Some? && email.value in customers then
      if password == Some(customers[email.value].pw) then Accepted else IncorrectPassword
    else NoSuchEmail
  }

  /** With a store loaded from a customer file, the last line holding an
      email is the one whose password logs in: that password is accepted,
      any other is rejected as incorrect, and an email on no line is unknown. */
  lemma LoginAgainstFile(lines: seq<string>, i: nat, c: Customer, password: Option<string>, stranger: string)
    requires Load(lines).Success?
    requires i < |lines| && ParseLine(lines[i]) == Success(c)
    requires forall j :: i < j < |lines| && ParseLine(lines[j]).Success? ==> ParseLine(lines[j]).value.email != c.email
    requires forall j :: 0 <= j < |lines| ==> ParseLine(lines[j]).Success? ==> ParseLine(lines[j]).value.email != stranger
    ensures CheckCredentials(Load(lines).value, Some(c.email), password) ==
              if password == Some(c.pw) then Accepted else IncorrectPassword
    ensures CheckCredentials(Load(lines).value, Some(stranger), password) == NoSuchEmail
  {
    LoadLastWins(lines, i, c);
    LoadKeys(lines);
  }

  /** One visitor's session: the cart and the logged-in customer's email. */
  class Session {
    /** `session['cart']`: the ids added so far, absent until the first add. */
    var cart: Option<seq<int>>
    /** `session['logged_in_customer_email']`, present only while logged in. */
    var loggedInEmail: Option<string>

    /** A new visitor's session holds neither key. */
    constructor ()
      ensures cart == None && loggedInEmail == None
    {
      cart := None;
      loggedInEmail := None;
    }

    /** The ids in the cart; an absent cart holds none. */
    function CartItems(): seq<int>
      reads this
    {
      cart.GetOr([])
    }

    /** `add_to_cart`: create the cart if absent, then append `id` to it. */
    method AddToCart(id: int) returns (resp: Response)
      modifies this`cart
      ensures cart == Some(old(CartItems()) + [id])
      ensures resp == Response(Some("Melon added to cart"), Redirect("/melons"))
    {
      cart := Some(cart.GetOr([]));
      cart := Some(cart.value + [id]);
      resp := Response(Some("Melon added to cart"), Redirect("/melons"));
    }

    /** `shopping_cart`: one line item per distinct id in the cart, with its
        quantity, name and price, and the total price of the cart. */
    method ShoppingCart(catalog: map<int, Melon>) returns (orderedMelons: map<int, LineItem>, total: int)
      requires InCatalog(CartItems(), catalog)
      ensures orderedMelons.Keys == set id | id in CartItems()
      ensures forall id :: id in orderedMelons ==>
                orderedMelons[id] == LineItem(multiset(CartItems())[id], catalog[id].commonName, catalog[id].price)
      ensures orderedMelons == Summary(CartItems(), catalog)
      ensures total == CartTotal(CartItems(), catalog)
      ensures cart.None? ==> orderedMelons == map[] && total == 0
    {
      orderedMelons := map[];
      total := 0;
      if cart.Some? {
        var items := cart.value;
        assert items == CartItems();
        var remaining: set<int> := set id | id in items;
        forall id | id in remaining ensures id in catalog {
          var k :| 0 <= k < |items| && items[k] == id;
        }
        PartTotalNone(items, catalog);
        assert orderedMelons.Keys == {};
        while remaining != {}
          invariant remaining <= set id | id in items
          invariant forall id :: id in remaining ==> id in catalog
          invariant orderedMelons.Keys == (set id | id in items) - remaining
          invariant forall id :: id in orderedMelons ==>
                      orderedMelons[id] == LineItem(multiset(items)[id], catalog[id].commonName, catalog[id].price)
          invariant total == PartTotal(items, orderedMelons.Keys, catalog)
          decreases remaining
        {
          assert exists id :: id in remaining by {
            if forall id :: id !in remaining { assert false; }
          }
          var melonId :| melonId in remaining;
          var quantity := multiset(items)[melonId];
          var melon := catalog[melonId];
          ghost var done := orderedMelons.Keys;
          PartTotalAdd(items, done, melonId, catalog);
          orderedMelons := orderedMelons[melonId := LineItem(quantity, melon.commonName, melon.price)];
          assert orderedMelons.Keys == done + {melonId};
          total := total + quantity * melon.price;
          remaining := remaining - {melonId};
        }
        PartTotalAll(items, orderedMelons.Keys, catalog);
      }
      assert orderedMelons.Keys == Summary(CartItems(), catalog).Keys;
    }

    /** `show_login`: the login form for a visitor who is not logged in,
        otherwise a redirect to the melon list. */
    function ShowLogin(): (resp: Response)
      reads this
      ensures resp.page == Template("login.html") <==> loggedInEmail.None?
      ensures resp.page.Redirect? <==> loggedInEmail.Some?
      ensures resp.page.Redirect? ==> resp == Response(Some("You are logged in"), Redirect("/melons"))
    {
      if loggedInEmail.None? then Response(None, Template("login.html"))
      else Response(Some("You are logged in"), Redirect("/melons"))
    }

    /** `process_login`: log in when the email is known and the password
        matches; otherwise say why not and leave the session as it was. */
    method ProcessLogin(customers: map<string, Customer>, email: Option<string>, password: Option<string>)
      returns (resp: Response)
      modifies this`loggedInEmail
      ensures loggedInEmail ==
                if email.Some? && email.value in customers && password == Some(customers[email.value].pw)
                then email else old(loggedInEmail)
      ensures resp == match CheckCredentials(customers, email, password)
                      case Accepted => Response(Some("Success! You are logged in."), Redirect("/melons"))
                      case IncorrectPassword => Response(Some("Incorrect password."), Redirect("/login"))
                      case NoSuchEmail => Response(Some("No such email."), Redirect("/login"))
    {
      if email.Some? && email.value in customers && password == Some(customers[email.value].pw) {
        loggedInEmail := email;
        resp := Response(Some("Success! You are logged in."), Redirect("/melons"));
      } else if email.Some? && email.value in customers && password != Some(customers[email.value].pw) {
        resp := Response(Some("Incorrect password."), Redirect("/login"));
      } else {
        resp := Response(Some("No such email."), Redirect("/login"));
      }
    }

    /** `process_logout`: delete the logged-in email; deleting an absent key
        raises, so a customer must be logged in. */
    method ProcessLogout() returns (resp: Response)
      requires loggedInEmail.Some?
      modifies this`loggedInEmail
      ensures loggedInEmail == None
      ensures resp == Response(Some("You have successfully logged out."), Redirect("/melons"))
    {
      loggedInEmail := None;
      resp := Response(Some("You have successfully logged out."), Redirect("/melons"));
    }
  }

  /** Logging in against a one-line customer file: a wrong password is
      refused, an email the file lacks is unknown, the right password logs in,
      and logging out ends the login. */
  method LoginVisit() {
    var lines := ["Jane|Doe|jane@x.com|secret\n"];
    var jane := Customer("Jane", "Doe", "jane@x.com", "secret");
    assert Join(["Jane", "Doe", "jane@x.com", "secret"], Separator) == "Jane|Doe|jane@x.com|secret";
    assert Trimmed("Jane|Doe|jane@x.com|secret");
    ParseLineVerbatim([], "Jane", "Doe", "jane@x.com", "secret", "\n");
    assert lines[0] == [] + "Jane|Doe|jane@x.com|secret" + "\n";
    LoadSucceedsIff(lines);
    var loaded := ReadCustomersFromFile(lines);
    LoginAgainstFile(lines, 0, jane, Some("wrong"), "bob@x.com");
    LoginAgainstFile(lines, 0, jane, Some("secret"), "bob@x.com");
    var customers := loaded.value;

    var session := new Session();
    var resp := session.ProcessLogin(customers, Some("bob@x.com"), Some("secret"));
    assert resp.flash == Some("No such email.") && session.loggedInEmail == None;
    resp := session.ProcessLogin(customers, Some("jane@x.com"), Some("wrong"));
    assert resp.flash == Some("Incorrect password.") && session.loggedInEmail == None;
    resp := session.ProcessLogin(customers, Some("jane@x.com"), Some("secret"));
    assert session.loggedInEmail == Some("jane@x.com");
    assert session.ShowLogin().page == Redirect("/melons");
    resp := session.ProcessLogout();
    assert session.ShowLogin().page == Template("login.html");
  }

  /** Adding melon 5 twice gives one cart line of quantity two. */
  method CartVisit(catalog: map<int, Melon>)
    requires 5 in catalog
  {
    var session := new Session();
    var resp := session.AddToCart(5);
    resp := session.AddToCart(5);
    assert session.CartItems() == [5, 5];
    var orderedMelons, total := session.ShoppingCart(catalog);
    SummaryAfterAdd([], 5, catalog);
    SummaryAfterAdd([5], 5, catalog);
    assert [] + [5] == [5] && [5] + [5] == [5, 5];
    assert orderedMelons.Keys == {5};
    assert orderedMelons[5] == LineItem(2, catalog[5].commonName, catalog[5].price);
    assert total == 2 * catalog[5].price;
  }
}
