/** The customer store: parsing the pipe-delimited customer file into a
    mapping from email address to customer, and looking a customer up. */
module Customers {
  import opened Wrappers
  import opened PyStrings

  /** An Ubermelon customer. Its four fields are set once, when its line of
      the customer file is read, and never change afterwards. */
  datatype Customer = Customer(firstName: string, lastName: string, email: string, pw: string)

  /** The file's field separator. */
  const Separator: char := '|'

  /** Unpacking a line into four names raises on the line with this index,
      which split into `fields` pieces instead of four. */
  datatype LoadError = WrongFieldCount(line: nat, fields: nat)

  /** The pieces of one line: the whole line stripped, then split on `|`. */
  function Fields(line: string): seq<string> {
    Split(Strip(line), Separator)
  }

  /** One line as a customer, or the number of fields it had when that is
      not four (the unpacking `first_name, last_name, email, pw = customer`). */
  function ParseLine(line: string): Result<Customer, nat> {
    var f := Fields(line);
    if |f| == 4 then Success(Customer(f[0], f[1], f[2], f[3])) else Failure(|f|)
  }

  /** Every line of the file parsed on its own, in file order. */
  function ParseAll(lines: seq<string>): (r: seq<Result<Customer, nat>>)
    ensures |r| == |lines|
  {
    seq(|lines|, i requires 0 <= i < |lines| => ParseLine(lines[i]))
  }

  /** The database built from parsed lines in order: each customer is stored
      under its email, overwriting any earlier entry, and the first line that
      did not parse aborts the whole build. */
  function Store(parsed: seq<Result<Customer, nat>>): Result<map<string, Customer>, LoadError> {
    if parsed == [] then Success(map[])
    else
      var n := |parsed| - 1;
      match Store(parsed[..n])
      case Failure(e) => Failure(e)
      case Success(db) =>
        match parsed[n]
        case Failure(count) => Failure(WrongFieldCount(n, count))
        case Success(c) => Success(db[c.email := c])
  }

  /** The customer database `read_customers_from_file` returns for `lines`,
      or the error it raises. */
  function Load(lines: seq<string>): Result<map<string, Customer>, LoadError> {
    Store(ParseAll(lines))
  }

  /** Every entry is stored under its own email address. */
  ghost predicate KeyedByEmail(db: map<string, Customer>) {
    forall e :: e in db ==> db[e].email == e
  }

  /** `read_customers_from_file`, over the file's lines. */
  method ReadCustomersFromFile(lines: seq<string>) returns (r: Result<map<string, Customer>, LoadError>)
    ensures r == Load(lines)
  {
    ghost var parsed := ParseAll(lines);
    var customerDatabase := map[];
    var i := 0;
    while i < |lines|
      invariant 0 <= i <= |lines|
      invariant Store(parsed[..i]) == Success(customerDatabase)
    {
      var customer := Split(Strip(lines[i]), Separator);
      assert parsed[..i + 1][..i] == parsed[..i];
      assert parsed[i] == ParseLine(lines[i]);
      if |customer| != 4 {
        StoreFailureSticks(parsed, i + 1);
        return Failure(WrongFieldCount(i, |customer|));
      }
      var firstName, lastName, email, pw := customer[0], customer[1], customer[2], customer[3];
      customerDatabase := customerDatabase[email := Customer(firstName, lastName, email, pw)];
      i := i + 1;
    }
    assert parsed[..i] == parsed;
    return Success(customerDatabase);
  }

  /** Once a prefix fails to build, the whole build fails the same way. */
  lemma {:induction false} StoreFailureSticks(parsed: seq<Result<Customer, nat>>, k: nat)
    requires k <= |parsed| && Store(parsed[..k]).Failure?
    ensures Store(parsed) == Store(parsed[..k])
  {
    if k < |parsed| {
      var n := |parsed| - 1;
      assert parsed[..n][..k] == parsed[..k];
      StoreFailureSticks(parsed[..n], k);
    } else {
      assert parsed[..k] == parsed;
    }
  }

  /** A line parses exactly when, once stripped, it holds exactly three
      separators; so a blank line never parses. */
  lemma ParseLineSucceeds(line: string)
    ensures ParseLine(line).Success? <==> multiset(Strip(line))[Separator] == 3
    ensures AllSpace(line) ==> ParseLine(line) == Failure(1)
  {
    SplitCount(Strip(line), Separator);
    if AllSpace(line) {
      StripPadded(line, [], []);
      assert line + [] + [] == line;
    }
  }

  /** A well-formed line `first|last|email|pw`, padded with whitespace, gives a
      customer holding the four fields verbatim: only the ends of the line are
      stripped, so whitespace inside or between fields stays in the fields. */
  lemma ParseLineVerbatim(pre: string, first: string, last: string, email: string, pw: string, post: string)
    requires AllSpace(pre) && AllSpace(post)
    requires Separator !in first && Separator !in last && Separator !in email && Separator !in pw
    requires Trimmed(Join([first, last, email, pw], Separator))
    ensures ParseLine(pre + Join([first, last, email, pw], Separator) + post)
            == Success(Customer(first, last, email, pw))
  {
    var parts := [first, last, email, pw];
    var line := Join(parts, Separator);
    StripPadded(pre, line, post);
    SplitJoin(parts, Separator);
    assert Fields(pre + line + post) == parts;
  }

  /** Building succeeds exactly when every line parsed. */
  lemma {:induction false} StoreSucceedsIff(parsed: seq<Result<Customer, nat>>)
    ensures Store(parsed).Success? <==> forall i :: 0 <= i < |parsed| ==> parsed[i].Success?
  {
    if parsed != [] {
      var n := |parsed| - 1;
      StoreSucceedsIff(parsed[..n]);
      assert forall i :: 0 <= i < n ==> parsed[..n][i] == parsed[i];
    }
  }

  /** A failed build names the first line that did not parse. */
  lemma {:induction false} StoreFailsAtFirstBadLine(parsed: seq<Result<Customer, nat>>)
    requires Store(parsed).Failure?
    ensures Store(parsed).error.line < |parsed|
    ensures parsed[Store(parsed).error.line] == Failure(Store(parsed).error.fields)
    ensures forall j :: 0 <= j < Store(parsed).error.line ==> parsed[j].Success?
  {
    var n := |parsed| - 1;
    var prefix := parsed[..n];
    assert forall i :: 0 <= i < n ==> prefix[i] == parsed[i];
    if Store(prefix).Failure? {
      StoreFailsAtFirstBadLine(prefix);
    } else {
      StoreSucceedsIff(prefix);
    }
  }

  /** A built database is keyed by email and holds every parsed customer's email. */
  lemma {:induction false} StoreCoversLines(parsed: seq<Result<Customer, nat>>)
    requires Store(parsed).Success?
    ensures KeyedByEmail(Store(parsed).value)
    ensures forall i :: 0 <= i < |parsed| ==> parsed[i].Success? && parsed[i].value.email in Store(parsed).value
  {
    if parsed != [] {
      var n := |parsed| - 1;
      StoreCoversLines(parsed[..n]);
      assert forall i :: 0 <= i < n ==> parsed[..n][i] == parsed[i];
    }
  }

  /** Every entry of a built database is one of the parsed customers. */
  lemma {:induction false} StoreOnlyFromLines(parsed: seq<Result<Customer, nat>>)
    requires Store(parsed).Success?
    ensures forall e :: e in Store(parsed).value ==>
              exists i :: 0 <= i < |parsed| && parsed[i] == Success(Store(parsed).value[e])
  {
    if parsed != [] {
      var n := |parsed| - 1;
      var prefix := parsed[..n];
      StoreOnlyFromLines(prefix);
      var db := Store(parsed).value;
      var c := parsed[n].value;
      assert db == Store(prefix).value[c.email := c];
      forall e | e in db
        ensures exists i :: 0 <= i < |parsed| && parsed[i] == Success(db[e])
      {
        if e != c.email {
          var i :| 0 <= i < n && prefix[i] == Success(Store(prefix).value[e]);
          assert parsed[i] == prefix[i];
        }
      }
    }
  }

  /** Of several parsed customers sharing an email, the last is the one stored. */
  lemma {:induction false} StoreLastWins(parsed: seq<Result<Customer, nat>>, i: nat)
    requires Store(parsed).Success?
    requires i < |parsed| && parsed[i].Success?
    requires forall j :: i < j < |parsed| && parsed[j].Success? ==> parsed[j].value.email != parsed[i].value.email
    ensures parsed[i].value.email in Store(parsed).value
    ensures Store(parsed).value[parsed[i].value.email] == parsed[i].value
  {
    var n := |parsed| - 1;
    if i < n {
      assert forall j :: 0 <= j < n ==> parsed[..n][j] == parsed[j];
      StoreLastWins(parsed[..n], i);
    }
  }

  /** Loading succeeds exactly when every line parses; when it fails, the
      error names the first line that does not, and how many fields it had. */
  lemma LoadSucceedsIff(lines: seq<string>)
    ensures Load(lines).Success? <==> forall i :: 0 <= i < |lines| ==> ParseLine(lines[i]).Success?
    ensures Load(lines).Failure? ==>
              var e := Load(lines).error;
              e.line < |lines| && ParseLine(lines[e.line]) == Failure(e.fields) &&
              forall j :: 0 <= j < e.line ==> ParseLine(lines[j]).Success?
  {
    var parsed := ParseAll(lines);
    assert forall i :: 0 <= i < |lines| ==> parsed[i] == ParseLine(lines[i]);
    StoreSucceedsIff(parsed);
    if Store(parsed).Failure? {
      StoreFailsAtFirstBadLine(parsed);
    }
  }

  /** A loaded database is keyed by email, holds an entry for the email of
      every line, and every entry is the customer of some line. */
  lemma LoadKeys(lines: seq<string>)
    requires Load(lines).Success?
    ensures KeyedByEmail(Load(lines).value)
    ensures forall i :: 0 <= i < |lines| ==>
              ParseLine(lines[i]).Success? && ParseLine(lines[i]).value.email in Load(lines).value
    ensures forall e :: e in Load(lines).value ==>
              exists i :: 0 <= i < |lines| && ParseLine(lines[i]) == Success(Load(lines).value[e])
  {
    var parsed := ParseAll(lines);
    assert forall i :: 0 <= i < |lines| ==> parsed[i] == ParseLine(lines[i]);
    StoreCoversLines(parsed);
    StoreOnlyFromLines(parsed);
  }

  /** When several lines share an email, the customer of the last of them is
      the one stored. */
  lemma LoadLastWins(lines: seq<string>, i: nat, c: Customer)
    requires Load(lines).Success?
    requires i < |lines| && ParseLine(lines[i]) == Success(c)
    requires forall j :: i < j < |lines| && ParseLine(lines[j]).Success? ==> ParseLine(lines[j]).value.email != c.email
    ensures c.email in Load(lines).value && Load(lines).value[c.email] == c
  {
    var parsed := ParseAll(lines);
    assert forall i :: 0 <= i < |lines| ==> parsed[i] == ParseLine(lines[i]);
    StoreCoversLines(parsed);
    StoreLastWins(parsed, i);
  }

  /** `get_by_email`: the stored customer for `email`; the source raises when
      the email is not a key, so the key must be present. */
  function GetByEmail(customers: map<string, Customer>, email: string): (c: Customer)
    requires email in customers
    ensures c in customers.Values
    ensures KeyedByEmail(customers) ==> c.email == email
  {
    customers[email]
  }
}
