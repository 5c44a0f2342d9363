/** `fetchUserOwnedBtcNamesFromApi`: normalise the address argument, request
    the BNSv2 "valid names" endpoint for it, turn a non-ok response into an
    error that names its status, and keep the full names of the `.btc`
    entries in response order. The HTTP exchange is an input: `server`
    gives, for a URL, the parsed response or the network error `fetch`
    rejects with. */
module BnsNames {
  import opened Wrappers

  /** One element of the response's `names` array. */
  datatype NameEntry = NameEntry(
    fullName: string,
    nameString: string,
    namespaceString: string,
    owner: string,
    registeredAt: string,
    renewalHeight: string,
    stxBurn: string,
    revoked: bool)

  /** The JSON body (`BnsV2ApiResponse`). */
  datatype NamesPage = NamesPage(total: int, currentBurnBlock: int, limit: int, offset: int, names: seq<NameEntry>)

  /** What `fetch` resolves to, with the body already parsed. */
  datatype HttpResponse = HttpResponse(ok: bool, status: nat, statusText: string, body: NamesPage)

  /** The address argument: an object with a `value` property (a Vue ref),
      or any other value, given by what `String(...)` makes of it. */
  datatype AddressInput = RefLike(value: Option<string>) | Plain(text: string)

  const ApiPrefix: string := "https://api.bnsv2.com/names/address/"
  const ApiSuffix: string := "/valid"
  const RefErrorMessage: string := "Address ref is null or undefined"
  const ResponseErrorPrefix: string := "BNSv2 API response error: "
  const BtcNamespace: string := "btc"

  // ---------------------------------------------------------------------
  // The request

  /** The address string, or the error thrown for a ref whose value is
      falsy (null or the empty string). Any other value is used as given. */
  function AddressString(input: AddressInput): (r: Result<string, string>)
    ensures input.RefLike? && (input.value == None || input.value == Some("")) ==>
      r == Failure(RefErrorMessage)
    ensures input.RefLike? && input.value.Some? && input.value.value != "" ==>
      r == Success(input.value.value)
    ensures input.Plain? ==> r == Success(input.text)
  {
    match input
    case RefLike(value) =>
      if value == None || value == Some("") then Failure(RefErrorMessage) else Success(value.value)
    case Plain(text) => Success(text)
  }

  /** The URL requested for an address; the address sits, unescaped,
      between the fixed prefix and suffix. */
  function RequestUrl(address: string): (url: string)
    ensures |url| == |ApiPrefix| + |address| + |ApiSuffix|
    ensures url[..|ApiPrefix|] == ApiPrefix
    ensures url[|ApiPrefix|..|ApiPrefix| + |address|] == address
    ensures url[|ApiPrefix| + |address|..] == ApiSuffix
  {
    ApiPrefix + address + ApiSuffix
  }

  /** Different addresses are sent to different URLs. */
  lemma RequestUrlInjective(a: string, b: string)
    requires RequestUrl(a) == RequestUrl(b)
    ensures a == b
  {
  }

  // ---------------------------------------------------------------------
  // Decimal rendering of the status code (`${response.status}`)

  predicate IsDigit(c: char) {
    '0' <= c <= '9'
  }

  predicate AllDigits(s: string) {
    forall i :: 0 <= i < |s| ==> IsDigit(s[i])
  }

  function DigitChar(d: nat): (c: char)
    requires d < 10
    ensures IsDigit(c) && c as int - '0' as int == d
  {
    ('0' as int + d) as char
  }

  /** The decimal numeral of `n`, as JavaScript renders an integral number. */
  function DecimalString(n: nat): (s: string)
    ensures |s| >= 1 && AllDigits(s)
    ensures s[0] == '0' ==> n == 0 && s == "0"
  {
    if n < 10 then [DigitChar(n)] else DecimalString(n / 10) + [DigitChar(n % 10)]
  }

  /** The number a string of digits denotes. */
  function DecimalValue(s: string): nat
    requires AllDigits(s)
  {
    if s == [] then 0
    else DecimalValue(s[..|s| - 1]) * 10 + (s[|s| - 1] as int - '0' as int)
  }

  /** Reading the numeral back gives the number. */
  lemma {:induction false} DecimalRoundTrip(n: nat)
    ensures DecimalValue(DecimalString(n)) == n
  {
    var s := DecimalString(n);
    if n >= 10 {
      DecimalRoundTrip(n / 10);
      assert s[..|s| - 1] == DecimalString(n / 10);
    }
  }

  /** The position of the first space in `s`, or `|s|` when there is none. */
  function IndexOfSpace(s: string): (k: nat)
    ensures k <= |s|
  {
    if s == [] then 0 else if s[0] == ' ' then 0 else 1 + IndexOfSpace(s[1..])
  }

  /** The first space after a numeral is the one that follows it. */
  lemma {:induction false} SpaceFollowsNumeral(d: string, t: string)
    requires AllDigits(d)
    ensures IndexOfSpace(d + " " + t) == |d|
  {
    if d == [] {
      assert d + " " + t == " " + t;
    } else {
      assert (d + " " + t)[1..] == d[1..] + " " + t;
      SpaceFollowsNumeral(d[1..], t);
    }
  }

  /** The message of the error thrown for a non-ok response. */
  function ResponseErrorMessage(status: nat, statusText: string): (m: string)
    ensures |m| > |ResponseErrorPrefix| && m[..|ResponseErrorPrefix|] == ResponseErrorPrefix
  {
    ResponseErrorPrefix + DecimalString(status) + " " + statusText
  }

  /** The message gives back both the status and the status text. */
  lemma ResponseErrorMessageInjective(s1: nat, t1: string, s2: nat, t2: string)
    requires ResponseErrorMessage(s1, t1) == ResponseErrorMessage(s2, t2)
    ensures s1 == s2 && t1 == t2
  {
    var d1, d2 := DecimalString(s1), DecimalString(s2);
    var tail1, tail2 := d1 + " " + t1, d2 + " " + t2;
    var p := ResponseErrorPrefix;
    assert (p + tail1)[|p|..] == tail1;
    assert (p + tail2)[|p|..] == tail2;
    assert ResponseErrorMessage(s1, t1) == p + tail1;
    assert ResponseErrorMessage(s2, t2) == p + tail2;
    assert tail1 == tail2;
    SpaceFollowsNumeral(d1, t1);
    SpaceFollowsNumeral(d2, t2);
    assert d1 == tail1[..|d1|] == tail2[..|d2|] == d2;
    assert t1 == tail1[|d1| + 1..] == tail2[|d2| + 1..] == t2;
    DecimalRoundTrip(s1);
    DecimalRoundTrip(s2);
  }

  // ---------------------------------------------------------------------
  // The result: `names.filter(namespace === 'btc').map(full_name)`

  predicate IsBtc(e: NameEntry) {
    e.namespaceString == BtcNamespace
  }

  /** The entries of the `btc` namespace, in response order. */
  function FilterBtc(names: seq<NameEntry>): (r: seq<NameEntry>)
    ensures |r| <= |names|
    ensures forall e :: e in r ==> IsBtc(e) && e in names
  {
    if names == [] then []
    else (if IsBtc(names[0]) then [names[0]] else []) + FilterBtc(names[1..])
  }

  /** The full name of each entry, position by position. */
  function FullNames(entries: seq<NameEntry>): (r: seq<string>)
    ensures |r| == |entries|
    ensures forall i :: 0 <= i < |entries| ==> r[i] == entries[i].fullName
  {
    seq(|entries|, i requires 0 <= i < |entries| => entries[i].fullName)
  }

  /** The names returned for a successful response. */
  function BtcFullNames(names: seq<NameEntry>): (r: seq<string>)
    ensures |r| <= |names|
  {
    FullNames(FilterBtc(names))
  }

  /** Filtering splits over concatenation: each part keeps its own `.btc`
      entries, and the parts stay in order. */
  lemma {:induction false} FilterBtcAppend(a: seq<NameEntry>, b: seq<NameEntry>)
    ensures FilterBtc(a + b) == FilterBtc(a) + FilterBtc(b)
  {
    if a == [] {
      assert a + b == b;
    } else {
      assert (a + b)[1..] == a[1..] + b;
      FilterBtcAppend(a[1..], b);
    }
  }

  /** Every `.btc` entry is kept as often as it occurs (duplicates are not
      removed) and every other entry is dropped. */
  lemma {:induction false} FilterBtcCounts(names: seq<NameEntry>, e: NameEntry)
    ensures multiset(FilterBtc(names))[e] == if IsBtc(e) then multiset(names)[e] else 0
  {
    if names != [] {
      FilterBtcCounts(names[1..], e);
      assert names == [names[0]] + names[1..];
      assert multiset(names) == multiset([names[0]]) + multiset(names[1..]);
    }
  }

  /** `a` can be obtained from `b` by deleting elements. */
  ghost predicate IsSubsequence<T>(a: seq<T>, b: seq<T>)
  {
    if a == [] then true
    else if b == [] then false
    else if a[0] == b[0] then IsSubsequence(a[1..], b[1..])
    else IsSubsequence(a, b[1..])
  }

  /** The kept entries appear in response order. */
  lemma {:induction false} FilterBtcIsSubsequence(names: seq<NameEntry>)
    ensures IsSubsequence(FilterBtc(names), names)
  {
    if names != [] {
      FilterBtcIsSubsequence(names[1..]);
      var r := FilterBtc(names);
      if IsBtc(names[0]) {
        assert r[0] == names[0] && r[1..] == FilterBtc(names[1..]);
      } else {
        assert r == FilterBtc(names[1..]);
        if r != [] {
          assert r[0] in r;
          assert r[0] != names[0];
        }
      }
    }
  }

  /** A name is returned exactly when some `.btc` entry has it as its
      full name. */
  lemma BtcFullNamesMembership(names: seq<NameEntry>, x: string)
    ensures x in BtcFullNames(names) <==>
      exists i :: 0 <= i < |names| && IsBtc(names[i]) && names[i].fullName == x
  {
    var kept := FilterBtc(names);
    var r := BtcFullNames(names);
    if x in r {
      var k :| 0 <= k < |r| && r[k] == x;
      assert kept[k] in kept;
      var i :| 0 <= i < |names| && names[i] == kept[k];
      assert IsBtc(names[i]) && names[i].fullName == x;
    }
    if i :| 0 <= i < |names| && IsBtc(names[i]) && names[i].fullName == x {
      FilterBtcCounts(names, names[i]);
      assert names[i] in multiset(names);
      assert names[i] in multiset(kept);
      var k :| 0 <= k < |kept| && kept[k] == names[i];
      assert r[k] == x;
    }
  }

  // ---------------------------------------------------------------------
  // The whole lookup

  /** What the awaited `fetch` leads to: a network error is rethrown as it
      is, a non-ok response throws with its status, an ok response gives
      the `.btc` full names. */
  function HandleResponse(outcome: Result<HttpResponse, string>): (r: Result<seq<string>, string>)
    ensures outcome.Failure? ==> r == Failure(outcome.error)
    ensures outcome.Success? && !outcome.value.ok ==>
      r == Failure(ResponseErrorMessage(outcome.value.status, outcome.value.statusText))
    ensures outcome.Success? && outcome.value.ok ==> r == Success(BtcFullNames(outcome.value.body.names))
  {
    match outcome
    case Failure(error) => Failure(error)
    case Success(response) =>
      if !response.ok then Failure(ResponseErrorMessage(response.status, response.statusText))
      else Success(BtcFullNames(response.body.names))
  }

  /** `fetchUserOwnedBtcNamesFromApi(stacksAddress)`. */
  function FetchUserOwnedBtcNames(input: AddressInput, server: string -> Result<HttpResponse, string>): (r: Result<seq<string>, string>)
    ensures AddressString(input).Failure? ==> r == Failure(RefErrorMessage)
    ensures AddressString(input).Success? ==>
      r == HandleResponse(server(RequestUrl(AddressString(input).value)))
  {
    match AddressString(input)
    case Failure(error) => Failure(error)
    case Success(address) => HandleResponse(server(RequestUrl(address)))
  }

  /** A ref without a value fails the same way whatever the server would
      answer: no request is made. */
  lemma EmptyRefMakesNoRequest(value: Option<string>, s1: string -> Result<HttpResponse, string>, s2: string -> Result<HttpResponse, string>)
    requires value == None || value == Some("")
    ensures FetchUserOwnedBtcNames(RefLike(value), s1) == FetchUserOwnedBtcNames(RefLike(value), s2) == Failure(RefErrorMessage)
  {
  }
}
