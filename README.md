# Ubermelon storefront: cart, login and customer file

A Dafny model of the logic behind the Ubermelon teaching storefront (a small
Flask application): the shopping cart kept in the visitor's session, the
login/logout decisions, and the parser that loads the pipe-delimited
customer file into a store keyed by email.

- `wrappers.dfy` (`Wrappers`): `Option` for absent session keys and missing
  form fields, `Result` for errors the source raises.
- `pystrings.dfy` (`PyStrings`): Python 2's `str.strip()` and
  `str.split("|")`, with the facts the parser needs. Splitting and joining
  are inverse, and stripping removes only whitespace padding at the ends.
- `customers.dfy` (`Customers`): `Customer` records, line parsing, and the
  file loader `ReadCustomersFromFile`, a loop proved equal to the
  specification function `Load`. Lemmas state when loading fails (the first
  malformed line), which keys the store has, and that the last line wins
  when two lines share an email.
- `shoppingsite.dfy` (`ShoppingSite`): the `Session` class with its `cart`
  and `loggedInEmail` fields. `AddToCart`, `ProcessLogin` and
  `ProcessLogout` are methods that update the session and return a
  `Response` value (flash message and rendered template or redirect).
  `ShowLogin` is a function of the session and `ShoppingCart` a method that
  changes nothing; both only read it. The cart page's loop over the distinct ids in the cart is
  proved against `Summary` (one line item per distinct id) and `CartTotal` (the price of the
  cart summed entry by entry).
  A lemma then shows that this total depends only on the multiset of ids,
  not on their order. `LoginVisit` and `CartVisit` are client methods. They
  walk through a session: loading a one-line customer file, an unknown email,
  a wrong password, then a successful login, then logout; and adding melon 5
  twice to get quantity 2.

The catalog (the `melons` module) is a parameter `map<int, Melon>`. The
customer store is a parameter `map<string, Customer>`. The file is a
parameter `seq<string>` holding its lines.

Points where the model follows the code closely:
- Each line of the customer file holds `first|last|email|pw`, in that order
  (customers.py:35).
- Logging out deletes the session key, which raises when no customer is
  logged in (shoppingsite.py:161). So `ProcessLogout` requires a logged-in
  customer, and logging out twice is not modelled.
- `get_by_email` indexes the store directly, which raises on an unknown
  email (customers.py:46). So `GetByEmail` requires the key.
- A later line with the same email overwrites the earlier entry
  (customers.py:38).

`Customer` is a datatype rather than a class. Its constructor only sets the
four fields, and nothing changes them afterwards.

## Model

| member | source | states |
|---|---|---|
| `PyStrings.StripLeftShape` | customers.py:33 | the result is a suffix of the line, everything dropped is whitespace, and it does not start with whitespace |
| `PyStrings.StripRightShape` | customers.py:33 | the result is a prefix of the line, everything dropped is whitespace, and it does not end with whitespace |
| `PyStrings.StripTrimmed` | customers.py:33 | the stripped line neither starts nor ends with whitespace and is no longer than the line |
| `PyStrings.StripPadded` | customers.py:33 | stripping a trimmed string padded with whitespace gives back exactly that string, so inner whitespace is kept |
| `PyStrings.Split` | customers.py:34 | splitting on the pipe character gives at least one piece, and no piece contains a separator |
| `PyStrings.SplitCount` | customers.py:34 | there is one piece more than there are separators, so an empty string gives one (empty) piece |
| `PyStrings.JoinSplit` | customers.py:34 | joining the pieces with the separator gives back the original string |
| `PyStrings.SplitJoin` | customers.py:34 | splitting a join of separator-free fields gives back exactly those fields |
| `Customers.ParseLineSucceeds` | customers.py:33-35 | a line parses iff its stripped form has exactly three separators; an all-whitespace (blank) line fails with one field |
| `Customers.ParseLineVerbatim` | customers.py:12-15 | a whitespace-padded line of four pipe-separated fields yields a customer whose four fields are the four text fields verbatim |
| `Customers.ReadCustomersFromFile` | customers.py:25-40 | the loop over the lines returns exactly `Load(lines)`: the store built in file order, or the error of the first malformed line |
| `Customers.LoadSucceedsIff` | customers.py:32-35 | loading succeeds iff every line parses; on failure the error names the first bad line and its field count, and every earlier line parsed |
| `Customers.LoadKeys` | customers.py:32-38 | a loaded store maps every key to a customer with that email, holds every line's email, and each entry is some line's customer |
| `Customers.LoadLastWins` | customers.py:38 | when several lines share an email, the store holds the customer of the last of them |
| `Customers.GetByEmail` | customers.py:43-46 | needs the email to be a key; returns a stored customer, which has that email when the store is keyed by email |
| `ShoppingSite.SummaryAfterAdd` | shoppingsite.py:76-109 | after appending `id` to the cart (lines 108-109), the cart page built at lines 76-87 gains `id` as a key; its line has quantity one more than `id`'s old count and the catalog's name and price; every other line is unchanged; the total rises by exactly `id`'s price |
| `ShoppingSite.CartTotalPermutation` | shoppingsite.py:80-87 | two carts with the same multiset of ids have the same total, so the order of adds does not matter |
| `ShoppingSite.CheckCredentials` | shoppingsite.py:143-152 | accepted iff the email is a known key and the password equals the stored one; incorrect password iff known key and any other password; no such email iff the email is missing or unknown |
| `ShoppingSite.LoginAgainstFile` | shoppingsite.py:143-152 | for a store loaded from a file, the password on the last line with an email is accepted and any other is an incorrect password; an email on no line is unknown |
| `ShoppingSite.Session.AddToCart` | shoppingsite.py:108-116 | the cart becomes the old cart (empty if absent) with `id` appended; the email is untouched; the response flashes "Melon added to cart" and redirects to /melons |
| `ShoppingSite.Session.ShoppingCart` | shoppingsite.py:76-91 | the summary is `Summary` of the cart: its keys are exactly the distinct ids in the cart; each entry's quantity is the id's count in the cart, with the catalog's name and price; the total is the cart's total; an absent cart gives an empty summary and total 0 |
| `ShoppingSite.Session.ShowLogin` | shoppingsite.py:123-127 | renders login.html iff no customer is logged in, otherwise flashes "You are logged in" and redirects to /melons |
| `ShoppingSite.Session.ProcessLogin` | shoppingsite.py:138-152 | sets the logged-in email iff the email is a known key with exactly that password, else leaves it unchanged; flashes and redirects as the credential check decides (/melons on success, /login otherwise) |
| `ShoppingSite.Session.ProcessLogout` | shoppingsite.py:161-163 | requires a logged-in customer; removes the email and leaves the cart alone; flashes "You have successfully logged out." and redirects to /melons |

## Left out

- Flask routing, `render_template`, `redirect` and `flash`. A route's effect is returned as a `Response` value instead.
- The routes `index`, `list_melons`, `show_melon` and `checkout` only call the catalog or a template, or are a stub.
- The `melons` module is not part of this model. The catalog is a `map<int, Melon>` of names and prices.
- ShoppingSite.Session.ShoppingCart: prices and the total are exact integers (cents). The source's prices may be floats, and floating-point rounding is not modelled.
- ShoppingSite.Session.ShoppingCart: a cart id missing from the catalog makes the source fail in the catalog lookup. This is a precondition, not an error result.
- The file is not opened or read. The loader takes the file's lines as `seq<string>`. The module-level load at startup is not modelled either.
- Python 2 byte strings are modelled as `string`. `Strip` removes the six ASCII whitespace characters that Python 2's `str.strip()` removes, and nothing else.
- Session cookies, the secret key, the debug toolbar and `app.run`.
- `Customer.__repr__`, which only formats a customer for display.
- ShoppingSite.CheckCredentials: the email and password from the form (unicode in Python 2) are assumed to compare equal to the file's byte strings exactly when their characters agree, as holds for ASCII credentials. In the source a non-ASCII email read from the file never matches the form's value, so it gives "No such email."; a non-ASCII password gives "Incorrect password."
