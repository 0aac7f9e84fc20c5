/**
 * `weewx_hemna_plugin/hemna.py`, the Python 2 copy of the uploader. Its
 * `format_url` walks `_FORMATS` in the iteration order of a Python 2
 * dictionary, which follows the hashes of the keys rather than the order the
 * rows are written in. The model fixes that order as a field of the thread
 * and holds for every rearrangement of the 13 rows. This copy also classifies
 * the HTTP errors of `post_request`.
 */
module PluginHemna {
  import opened Wrappers
  import opened Query
  import opened LogMask

  /** `order` holds the rows of `_FORMATS`, each exactly once, in some order. */
  predicate IsDictOrder(order: seq<Entry>)
  {
    multiset(order) == multiset(FORMATS)
  }

  /** An element that occurs at two positions occurs at least twice. */
  lemma TwiceInMultiset<T>(s: seq<T>, i: nat, j: nat)
    requires i < j < |s| && s[i] == s[j]
    ensures multiset(s)[s[i]] >= 2
  {
    assert s == s[..j] + [s[j]] + s[j + 1..];
    assert s[i] in s[..j];
  }

  /** In a sequence without repeats, every element occurs at most once. */
  lemma {:induction false} AtMostOnce<T>(s: seq<T>, x: T)
    requires forall i, j :: 0 <= i < j < |s| ==> s[i] != s[j]
    ensures multiset(s)[x] <= 1
    decreases |s|
  {
    if s != [] {
      assert s == [s[0]] + s[1..];
      AtMostOnce(s[1..], x);
      if x == s[0] {
        assert x !in s[1..];
      }
    }
  }

  /**
   * A rearrangement of a table with distinct keys is a table with the same
   * rows and distinct keys.
   */
  lemma PermutedTable(base: Table, order: seq<Entry>)
    requires multiset(order) == multiset(base)
    requires forall i, j :: 0 <= i < j < |base| ==> base[i].key != base[j].key
    ensures |order| == |base| && WellTyped(order) && PlainFields(order)
    ensures forall e :: e in base <==> e in order
    ensures forall i, j :: 0 <= i < j < |order| ==> order[i].key != order[j].key
  {
    assert |order| == |multiset(order)| == |multiset(base)| == |base|;
    WellTypedPermutation(base, order);
    forall e ensures e in base <==> e in order {
      assert e in base <==> e in multiset(base);
      assert e in order <==> e in multiset(order);
    }
    forall k | 0 <= k < |order| ensures '&' !in order[k].template.field {
      assert order[k] in base;
    }
    forall i, j | 0 <= i < j < |order| ensures order[i].key != order[j].key {
      if order[i].key == order[j].key {
        assert order[i] in base && order[j] in base;
        TwiceInMultiset(order, i, j);
        AtMostOnce(base, order[i]);
      }
    }
  }

  /**
   * A dictionary order is a table: 13 rows, each row of `_FORMATS` at one
   * position, and no key at two positions, so every key yields one token.
   */
  lemma DictOrderIsTable(order: seq<Entry>)
    requires IsDictOrder(order)
    ensures |order| == 13 && WellTyped(order) && PlainFields(order)
    ensures forall e :: e in FORMATS <==> e in order
    ensures forall i, j :: 0 <= i < j < |order| ==> order[i].key != order[j].key
  {
    FormatsKeysDistinct();
    PermutedTable(FORMATS, order);
  }

  /** The uploader thread of the Python 2 copy. */
  class HemnaThread {
    const station: string
    const password: string
    const serverUrl: string
    /** The order in which this interpreter's dictionary yields the keys of `_FORMATS`. */
    const dictOrder: Table

    /** Stores the station, password and server URL; the rest belongs to the host's RESTThread. */
    constructor (station: string, password: string, serverUrl: string, dictOrder: seq<Entry>)
      requires IsDictOrder(dictOrder)
      ensures this.station == station && this.password == password && this.serverUrl == serverUrl
      ensures this.dictOrder == dictOrder
    {
      DictOrderIsTable(dictOrder);
      this.station := station;
      this.password := password;
      this.serverUrl := serverUrl;
      this.dictOrder := dictOrder;
    }

    /**
     * `format_url`: the URL for one record, with the rows in dictionary
     * order. It reads neither `station` nor `password`. With the host's debug
     * level at 2 or more, the masked URL is also logged.
     */
    method FormatUrl(record: Record, lib: Library, debug: int) returns (url: string, logged: Option<string>)
      ensures url == Url(serverUrl, dictOrder, record, lib)
      ensures logged == (if debug >= 2 then Some(LogLine(url)) else None)
    {
      var tokens := [TARGET];
      var i := 0;
      while i < |dictOrder|
        invariant 0 <= i <= |dictOrder|
        invariant |tokens| == i + 1 && tokens[0] == TARGET
        invariant forall j :: 0 <= j < i ==> tokens[j + 1] == FieldToken(dictOrder[j], record, lib)
      {
        var entry := dictOrder[i];
        assert entry in dictOrder;
        var v := Get(record, entry.key);
        if v != None {
          var arg := Num(v.value);
          if entry.key == "dateTime" {
            arg := Text(EncodeTimestamp(lib, v.value));
          }
          tokens := tokens + [Percent(entry.template, arg, lib)];
        } else {
          tokens := tokens + [Percent(entry.template, Num(0.0), lib)];
        }
        assert tokens[i + 1] == FieldToken(entry, record, lib);
        i := i + 1;
      }
      tokens := tokens + ["wind_direction=N"];
      tokens := tokens + ["tendency=na"];
      tokens := tokens + ["forecast=na"];
      QueryTokensByParts(dictOrder, record, lib, tokens);
      var query := Join(tokens);
      url := serverUrl + "?" + query;
      logged := None;
      if debug >= 2 {
        logged := Some(LogLine(url));
      }
    }
  }

  /**
   * Whatever the dictionary order, the URL is the server URL, `?`, then a
   * query that splits on `&` into 17 tokens: the target, one token per row in
   * that order, and the three constants, which close the query.
   */
  lemma UrlLayout(serverUrl: string, order: Table, record: Record, lib: Library)
    requires IsDictOrder(order)
    ensures var url := Url(serverUrl, order, record, lib);
      && url[..|serverUrl| + 1] == serverUrl + "?"
      && url[|serverUrl| + 1..] == Join(QueryTokens(order, record, lib)[..14]) + "&" + "wind_direction=N" + "&" + "tendency=na" + "&" + "forecast=na"
      && (NoAmpersand(lib) ==>
            var q := Split(url[|serverUrl| + 1..]);
            && |q| == 17 && q[0] == TARGET && q[14..] == TRAILER
            && forall j :: 0 <= j < 13 ==> q[j + 1] == FieldToken(order[j], record, lib))
  {
    DictOrderIsTable(order);
    QueryEndsWithTrailer(order, record, lib);
    var url := Url(serverUrl, order, record, lib);
    assert url[|serverUrl| + 1..] == Join(QueryTokens(order, record, lib));
    if NoAmpersand(lib) {
      QueryRoundTrip(order, record, lib);
    }
  }

  /**
   * Each row of `_FORMATS` yields exactly one token: the row sits at one
   * position of the dictionary order, and its token is at that position of
   * the query.
   */
  lemma EachRowOnce(order: Table, record: Record, lib: Library, e: Entry)
    requires IsDictOrder(order) && e in FORMATS
    ensures exists j :: (0 <= j < 13 && order[j] == e
      && QueryTokens(order, record, lib)[j + 1] == FieldToken(e, record, lib))
    ensures forall i, j :: 0 <= i < 13 && 0 <= j < 13 && order[i].key == e.key && order[j].key == e.key ==> i == j
  {
    DictOrderIsTable(order);
    QueryTokenLayout(order, record, lib);
    var j :| 0 <= j < |order| && order[j] == e;
  }

  /**
   * The Python 2 and Python 3 copies send the same tokens for the same
   * record; only their order may differ.
   */
  lemma SameTokensAsWrittenOrder(order: Table, record: Record, lib: Library)
    requires IsDictOrder(order)
    ensures multiset(QueryTokens(order, record, lib)) == multiset(QueryTokens(FORMATS, record, lib))
  {
    FieldTokensOfPermutation(order, FORMATS, record, lib);
    var mid := FieldTokens(order, record, lib);
    var midW := FieldTokens(FORMATS, record, lib);
    assert QueryTokens(order, record, lib) == [TARGET] + mid + TRAILER;
    assert QueryTokens(FORMATS, record, lib) == [TARGET] + midW + TRAILER;
  }

  /** A key missing from the record is sent as its template applied to 0.0, wherever its row falls. */
  lemma MissingKeysSendZero(order: Table, record: Record, lib: Library)
    requires IsDictOrder(order) && RendersZero(lib)
    ensures var q := QueryTokens(order, record, lib);
      forall j :: 0 <= j < 13 && Get(record, order[j].key) == None ==>
        q[j + 1] == order[j].template.field + "=" + ZeroText(order[j].template.conv)
  {
    DictOrderIsTable(order);
    MissingValuesAreZero(order, record, lib);
  }

  /** A record key that is not in `_FORMATS` has no effect on the URL. */
  lemma UnlistedKeyIgnored(serverUrl: string, order: Table, record: Record, k: string, v: Option<real>, lib: Library)
    requires IsDictOrder(order)
    requires forall e :: e in FORMATS ==> e.key != k
    ensures Url(serverUrl, order, record[k := v], lib) == Url(serverUrl, order, record, lib)
  {
    assert forall e :: e in order ==> e.key != k by {
      DictOrderIsTable(order);
    }
    UnlistedKeyIgnoredBy(serverUrl, order, record, k, v, lib);
  }

  /** What a call to `urllib2.urlopen` can raise. */
  datatype UrlError = HTTPError(code: int) | TypeError | OtherError(name: string)

  /** The outcome of one call to `urllib2.urlopen`. */
  datatype Opened<R> = Response(response: R) | Raised(failure: UrlError)

  /** The outcome of `post_request`. */
  datatype Posted<R> = Returned(response: R) | BadLogin(cause: UrlError) | Reraised(failure: UrlError)

  /** The Hemna server reports a bad login as HTTP error 400 or 403. */
  predicate SignalsBadLogin(f: UrlError)
  {
    f.HTTPError? && (f.code == 400 || f.code == 403)
  }

  /**
   * The inner `try`: the call with a timeout, and only when that raises
   * `TypeError` (an interpreter whose `urlopen` takes no timeout), the call
   * without one.
   */
  function UrlOpen<R>(withTimeout: Opened<R>, withoutTimeout: Opened<R>): Opened<R>
  {
    if withTimeout == Raised(TypeError) then withoutTimeout else withTimeout
  }

  /**
   * `post_request`, given what each `urlopen` call does. A response is
   * returned as it is; HTTP 400 and 403 become `BadLogin` around the error;
   * every other failure, whichever call raised it, propagates unchanged.
   */
  function PostRequest<R>(withTimeout: Opened<R>, withoutTimeout: Opened<R>): (p: Posted<R>)
    ensures var o := UrlOpen(withTimeout, withoutTimeout);
      && (p.Returned? <==> o.Response?)
      && (o.Response? ==> p.response == o.response)
      && (p.BadLogin? <==> o.Raised? && SignalsBadLogin(o.failure))
      && (p.BadLogin? ==> p.cause == o.failure)
      && (o.Raised? && !SignalsBadLogin(o.failure) ==> p == Reraised(o.failure))
  {
    match UrlOpen(withTimeout, withoutTimeout)
    case Response(r) => Returned(r)
    case Raised(f) =>
      if f.HTTPError? && (f.code == 400 || f.code == 403) then BadLogin(f) else Reraised(f)
  }

  /** The call without a timeout matters only when the first call raised `TypeError`. */
  lemma RetryOnlyAfterTypeError<R>(withTimeout: Opened<R>, a: Opened<R>, b: Opened<R>)
    ensures withTimeout != Raised(TypeError) ==> PostRequest(withTimeout, a) == PostRequest(withTimeout, b)
    ensures withTimeout == Raised(TypeError) ==> PostRequest(withTimeout, a) == PostRequest(a, a)
    ensures PostRequest<R>(Raised(TypeError), Raised(TypeError)) == Reraised(TypeError)
  {
  }

  /** Only the codes 400 and 403 are read as a bad login; 401, 404 and 500 propagate. */
  lemma BadLoginCodes<R>(code: int, later: Opened<R>)
    ensures PostRequest(Raised(HTTPError(code)), later).BadLogin? <==> code == 400 || code == 403
    ensures code == 401 || code == 404 || code == 500 ==>
      PostRequest(Raised(HTTPError(code)), later) == Reraised(HTTPError(code))
  {
  }
}
