/**
 * The part of `HemnaThread.format_url` that both copies of the uploader
 * share: the `_FORMATS` table, how one table row becomes one `key=value`
 * token, the constant tokens around them, and the `&`-joined query.
 *
 * Python's printf rendering, `str(float)`, `time.localtime`/`strftime` and
 * `quote_plus` are not modelled; they are the fields of a `Library` value
 * that every operation takes as a parameter, and what the model assumes of
 * them is stated by the predicates `NoAmpersand` and `RendersZero`.
 */
module Query {
  import opened Wrappers

  /** A conversion of the table's templates: `%s` or `%.<precision>f`. */
  datatype Conversion = AsString | Fixed(precision: nat)

  /** A template `<field>=<conversion>`, such as `rel_pressure=%.3f`. */
  datatype Template = Template(field: string, conv: Conversion)

  /** One row of `_FORMATS`: a record key and the template it is sent with. */
  datatype Entry = Entry(key: string, template: Template)

  /** The timestamp row is the one `format_url` special-cases; its template must take a string. */
  predicate Typed(e: Entry)
  {
    e.key == "dateTime" ==> e.template.conv == AsString
  }

  predicate WellTyped(table: seq<Entry>)
  {
    forall e :: e in table ==> Typed(e)
  }

  /** No template's field name contains `&`. */
  predicate PlainFields(table: seq<Entry>)
  {
    forall j :: 0 <= j < |table| ==> '&' !in table[j].template.field
  }

  /** A format table `format_url` can walk. */
  type Table = t: seq<Entry> | WellTyped(t) && PlainFields(t) witness []

  /** The rows of `_FORMATS`. */
  const DATE_TIME: Entry := Entry("dateTime", Template("datetime", AsString))
  const BAROMETER: Entry := Entry("barometer", Template("rel_pressure", Fixed(3)))
  const OUT_TEMP: Entry := Entry("outTemp", Template("temp_out", Fixed(1)))
  const IN_TEMP: Entry := Entry("inTemp", Template("temp_in", Fixed(1)))
  const OUT_HUMIDITY: Entry := Entry("outHumidity", Template("rel_hum_out", Fixed(0)))
  const IN_HUMIDITY: Entry := Entry("inHumidity", Template("rel_hum_in", Fixed(0)))
  const WIND_SPEED: Entry := Entry("windSpeed", Template("wind_speed", Fixed(1)))
  const WIND_DIR: Entry := Entry("windDir", Template("wind_angle", Fixed(0)))
  const WINDCHILL: Entry := Entry("windchill", Template("wind_chill", Fixed(1)))
  const DEWPOINT: Entry := Entry("dewpoint", Template("dewpoint", Fixed(1)))
  const RAIN_TOTAL: Entry := Entry("rainTotal", Template("rain_total", Fixed(2)))
  const HOUR_RAIN: Entry := Entry("hourRain", Template("rain_1h", Fixed(2)))
  const DAY_RAIN: Entry := Entry("dayRain", Template("rain_24h", Fixed(2)))

  /** `_FORMATS`, in the order its rows are written. */
  const FORMATS: Table := (FirstFieldsPlain(); LastFieldsPlain(); [
    DATE_TIME, BAROMETER, OUT_TEMP, IN_TEMP, OUT_HUMIDITY, IN_HUMIDITY, WIND_SPEED,
    WIND_DIR, WINDCHILL, DEWPOINT, RAIN_TOTAL, HOUR_RAIN, DAY_RAIN
  ])

  lemma FirstFieldsPlain()
    ensures '&' !in DATE_TIME.template.field && '&' !in BAROMETER.template.field
    ensures '&' !in OUT_TEMP.template.field && '&' !in IN_TEMP.template.field
    ensures '&' !in OUT_HUMIDITY.template.field && '&' !in IN_HUMIDITY.template.field
  {
  }

  lemma LastFieldsPlain()
    ensures '&' !in WIND_SPEED.template.field && '&' !in WIND_DIR.template.field
    ensures '&' !in WINDCHILL.template.field && '&' !in DEWPOINT.template.field
    ensures '&' !in RAIN_TOTAL.template.field && '&' !in HOUR_RAIN.template.field
    ensures '&' !in DAY_RAIN.template.field
  {
  }

  /** `_FORMATS` has 13 rows and no key appears in two of them. */
  lemma FormatsKeysDistinct()
    ensures |FORMATS| == 13
    ensures forall i, j :: 0 <= i < j < |FORMATS| ==> FORMATS[i].key != FORMATS[j].key
  {
  }

  /** The first token of every query. */
  const TARGET: string := "target=remote-update"

  /** The three constant tokens appended after the table's tokens. */
  const TRAILER: seq<string> := ["wind_direction=N", "tendency=na", "forecast=na"]

  /** An observation record: a key maps to a number or to Python's None. */
  type Record = map<string, Option<real>>

  /** `record.get(key)`: None when the key is absent or holds None. */
  function Get(record: Record, key: string): Option<real>
  {
    if key in record then record[key] else None
  }

  /** The right operand of `%`: a number, or the encoded timestamp string. */
  datatype Arg = Num(x: real) | Text(s: string)

  /** The library routines the formatter calls, left uninterpreted. */
  datatype Library = Library(
    fixed: (nat, real) -> string,  // "%.<p>f" % x
    floatStr: real -> string,      // "%s" % x for a float, i.e. str(x)
    localTime: real -> string,     // time.strftime("%Y-%m-%d %H:%M:%S", time.localtime(x))
    quotePlus: string -> string)   // urllib.quote_plus(s)

  /** No rendered number and no encoded string contains `&`; `quote_plus` encodes it as `%26`. */
  ghost predicate NoAmpersand(lib: Library)
  {
    && (forall p: nat, x: real :: '&' !in lib.fixed(p, x))
    && (forall x: real :: '&' !in lib.floatStr(x))
    && (forall s: string :: '&' !in lib.quotePlus(s))
  }

  /** The text Python prints for 0.0 under a conversion. */
  function ZeroText(conv: Conversion): string
  {
    match conv
    case AsString => "0.0"
    case Fixed(p) => if p == 0 then "0" else "0." + seq(p, _ => '0')
  }

  /** Python's rendering of 0.0, which the library is taken to follow. */
  ghost predicate RendersZero(lib: Library)
  {
    && lib.floatStr(0.0) == ZeroText(AsString)
    && (forall p: nat :: lib.fixed(p, 0.0) == ZeroText(Fixed(p)))
  }

  /** A `%.<p>f` conversion accepts only a number; `%s` accepts both. */
  predicate Accepts(conv: Conversion, arg: Arg)
  {
    conv.Fixed? ==> arg.Num?
  }

  /** `template % arg` for a template `<field>=<conv>`. */
  function Percent(t: Template, arg: Arg, lib: Library): string
    requires Accepts(t.conv, arg)
  {
    t.field + "=" +
    match arg
    case Text(s) => s
    case Num(x) => if t.conv.Fixed? then lib.fixed(t.conv.precision, x) else lib.floatStr(x)
  }

  /** The timestamp as sent: a local-time string, quote-plus encoded. */
  function EncodeTimestamp(lib: Library, x: real): string
  {
    lib.quotePlus(lib.localTime(x))
  }

  /** The operand `format_url` applies a row's template to: 0.0 for a missing value. */
  function Argument(key: string, v: Option<real>, lib: Library): Arg
  {
    match v
    case None => Num(0.0)
    case Some(x) => if key == "dateTime" then Text(EncodeTimestamp(lib, x)) else Num(x)
  }

  /** The token one table row contributes for a record. */
  function FieldToken(e: Entry, record: Record, lib: Library): string
    requires Typed(e)
  {
    Percent(e.template, Argument(e.key, Get(record, e.key), lib), lib)
  }

  /** The tokens of the table's rows, one per row, in the table's order. */
  function FieldTokens(table: seq<Entry>, record: Record, lib: Library): seq<string>
    requires WellTyped(table)
  {
    seq(|table|, i requires 0 <= i < |table| => FieldToken(table[i], record, lib))
  }

  /** The token list `format_url` joins, walking the table in the given order. */
  function QueryTokens(table: Table, record: Record, lib: Library): seq<string>
  {
    [TARGET] + FieldTokens(table, record, lib) + TRAILER
  }

  /** Taking out the element at `k` takes one copy of it out of the multiset. */
  lemma RemoveAt<T>(s: seq<T>, k: nat)
    requires k < |s|
    ensures multiset(s) == multiset(s[..k] + s[k + 1..]) + multiset{s[k]}
  {
    assert s == s[..k] + [s[k]] + s[k + 1..];
  }

  /** Dropping a row drops its token and keeps the other tokens. */
  lemma FieldTokensRemoveAt(t: seq<Entry>, k: nat, record: Record, lib: Library)
    requires WellTyped(t) && k < |t|
    ensures WellTyped(t[..k] + t[k + 1..])
    ensures multiset(t) == multiset(t[..k] + t[k + 1..]) + multiset{t[k]}
    ensures multiset(FieldTokens(t, record, lib))
         == multiset(FieldTokens(t[..k] + t[k + 1..], record, lib)) + multiset{FieldToken(t[k], record, lib)}
  {
    var rest := t[..k] + t[k + 1..];
    assert WellTyped(rest) by {
      assert forall e :: e in rest ==> e in t;
    }
    var tokens := FieldTokens(t, record, lib);
    assert FieldTokens(rest, record, lib) == tokens[..k] + tokens[k + 1..];
    RemoveAt(t, k);
    RemoveAt(tokens, k);
  }

  /** Reordering the rows keeps the table well typed. */
  lemma WellTypedPermutation(t1: seq<Entry>, t2: seq<Entry>)
    requires WellTyped(t1) && multiset(t1) == multiset(t2)
    ensures WellTyped(t2)
  {
    forall e | e in t2 ensures Typed(e) {
      assert e in multiset(t2);
    }
  }

  /** Taking the same element out of two equal multisets leaves equal multisets. */
  lemma MultisetCancel<T>(a: multiset<T>, b: multiset<T>, x: T)
    requires a + multiset{x} == b + multiset{x}
    ensures a == b
  {
    assert a == (a + multiset{x}) - multiset{x};
    assert b == (b + multiset{x}) - multiset{x};
  }

  /** Walking the rows in another order emits the same tokens, in another order. */
  lemma {:induction false} FieldTokensOfPermutation(t1: seq<Entry>, t2: seq<Entry>, record: Record, lib: Library)
    requires WellTyped(t1) && multiset(t1) == multiset(t2)
    ensures WellTyped(t2)
    ensures multiset(FieldTokens(t1, record, lib)) == multiset(FieldTokens(t2, record, lib))
    decreases |t1|
  {
    WellTypedPermutation(t1, t2);
    if t1 != [] {
      var e := t1[0];
      assert e in multiset(t2);
      var k :| 0 <= k < |t2| && t2[k] == e;
      FieldTokensRemoveAt(t2, k, record, lib);
      FieldTokensRemoveAt(t1, 0, record, lib);
      var rest := t2[..k] + t2[k + 1..];
      assert t1[..0] + t1[1..] == t1[1..];
      MultisetCancel(multiset(t1[1..]), multiset(rest), e);
      FieldTokensOfPermutation(t1[1..], rest, record, lib);
    }
  }

  /** `'&'.join(tokens)`. */
  function Join(tokens: seq<string>): string
  {
    if |tokens| == 0 then ""
    else if |tokens| == 1 then tokens[0]
    else tokens[0] + "&" + Join(tokens[1..])
  }

  /** The position of the first `&` in a string that has one. */
  function FirstAmpersand(s: string): (i: nat)
    requires '&' in s
    ensures i < |s| && s[i] == '&' && '&' !in s[..i]
  {
    if s[0] == '&' then 0 else 1 + FirstAmpersand(s[1..])
  }

  /** `s.split('&')`: never empty, and no piece contains `&`. */
  function Split(s: string): (pieces: seq<string>)
    ensures |pieces| >= 1
    ensures forall k :: 0 <= k < |pieces| ==> '&' !in pieces[k]
    decreases |s|
  {
    if '&' !in s then [s]
    else
      var i := FirstAmpersand(s);
      [s[..i]] + Split(s[i + 1..])
  }

  /** The URL `format_url` returns: `server_url + "?" + query`. */
  function Url(serverUrl: string, table: Table, record: Record, lib: Library): string
  {
    serverUrl + "?" + Join(QueryTokens(table, record, lib))
  }

  /** A list with the target, one token per row in order, and the constants is the token list. */
  lemma QueryTokensByParts(table: Table, record: Record, lib: Library, tokens: seq<string>)
    requires |tokens| == |table| + 4 && tokens[0] == TARGET
    requires forall j :: 0 <= j < |table| ==> tokens[j + 1] == FieldToken(table[j], record, lib)
    requires tokens[|table| + 1..] == TRAILER
    ensures tokens == QueryTokens(table, record, lib)
  {
  }

  /** The token list holds the target, one token per row in table order, then the constants. */
  lemma QueryTokenLayout(table: Table, record: Record, lib: Library)
    ensures var q := QueryTokens(table, record, lib);
      && |q| == |table| + 4 && q[0] == TARGET
      && (forall j :: 0 <= j < |table| ==> q[j + 1] == FieldToken(table[j], record, lib))
      && q[|table| + 1..] == TRAILER
  {
    var q := QueryTokens(table, record, lib);
    assert q[|table| + 1..] == TRAILER;
  }

  /** Splitting at a first `&` that follows an `&`-free piece. */
  lemma SplitAfterPiece(t: string, rest: string)
    requires '&' !in t
    ensures Split(t + "&" + rest) == [t] + Split(rest)
  {
    var s := t + "&" + rest;
    assert s[|t|] == '&' && s[..|t|] == t;
    var i := FirstAmpersand(s);
    assert i == |t|;
    assert s[i + 1..] == rest;
  }

  /** Splitting on `&` undoes joining, for a non-empty list of `&`-free tokens. */
  lemma {:induction false} SplitJoin(tokens: seq<string>)
    requires |tokens| >= 1
    requires forall k :: 0 <= k < |tokens| ==> '&' !in tokens[k]
    ensures Split(Join(tokens)) == tokens
  {
    if |tokens| > 1 {
      var t := tokens[0];
      assert Join(tokens) == t + "&" + Join(tokens[1..]);
      SplitAfterPiece(t, Join(tokens[1..]));
      SplitJoin(tokens[1..]);
      assert tokens == [t] + tokens[1..];
    }
  }

  /** Every token `format_url` emits is free of `&`. */
  lemma TokensHaveNoAmpersand(table: Table, record: Record, lib: Library)
    requires NoAmpersand(lib)
    ensures forall k :: 0 <= k < |QueryTokens(table, record, lib)| ==> '&' !in QueryTokens(table, record, lib)[k]
  {
    var q := QueryTokens(table, record, lib);
    forall k | 0 <= k < |q| ensures '&' !in q[k] {
      if 1 <= k <= |table| {
        var e := table[k - 1];
        assert q[k] == FieldToken(e, record, lib);
        assert '&' !in e.template.field;
        var arg := Argument(e.key, Get(record, e.key), lib);
        var value := match arg
          case Text(s) => s
          case Num(x) => if e.template.conv.Fixed? then lib.fixed(e.template.conv.precision, x) else lib.floatStr(x);
        assert q[k] == e.template.field + "=" + value;
        assert '&' !in value;
      }
    }
  }

  /**
   * The query string splits back into exactly the token list: the target
   * token, one token per row in table order, then the three constants.
   */
  lemma QueryRoundTrip(table: Table, record: Record, lib: Library)
    requires NoAmpersand(lib)
    ensures var q := Split(Join(QueryTokens(table, record, lib)));
      && q == QueryTokens(table, record, lib)
      && |q| == |table| + 4
      && q[0] == TARGET
      && (forall j :: 0 <= j < |table| ==> q[j + 1] == FieldToken(table[j], record, lib))
      && q[|table| + 1..] == TRAILER
  {
    var q := QueryTokens(table, record, lib);
    TokensHaveNoAmpersand(table, record, lib);
    SplitJoin(q);
    assert |q| == |table| + 4 && q[|table| + 1..] == TRAILER;
  }

  /** Joining two non-empty lists puts one `&` between their joins. */
  lemma {:induction false} JoinAppend(a: seq<string>, b: seq<string>)
    requires a != [] && b != []
    ensures Join(a + b) == Join(a) + "&" + Join(b)
    decreases |a|
  {
    if |a| == 1 {
      assert (a + b)[1..] == b;
    } else {
      assert (a + b)[1..] == a[1..] + b;
      JoinAppend(a[1..], b);
    }
  }

  /** Every query ends with `&wind_direction=N&tendency=na&forecast=na`. */
  lemma QueryEndsWithTrailer(table: Table, record: Record, lib: Library)
    ensures var q := QueryTokens(table, record, lib);
      Join(q) == Join(q[..|table| + 1]) + "&" + "wind_direction=N" + "&" + "tendency=na" + "&" + "forecast=na"
  {
    var q := QueryTokens(table, record, lib);
    var head := [TARGET] + FieldTokens(table, record, lib);
    assert q == head + TRAILER && q[..|table| + 1] == head;
    JoinAppend(head, TRAILER);
    assert TRAILER[1..][1..] == ["forecast=na"];
  }

  /** A row whose key is missing or None is sent as its template applied to 0.0. */
  lemma MissingValueIsZero(e: Entry, record: Record, lib: Library)
    requires Typed(e) && RendersZero(lib)
    requires Get(record, e.key) == None
    ensures FieldToken(e, record, lib) == e.template.field + "=" + ZeroText(e.template.conv)
  {
  }

  /** In any table, every row whose key is missing is sent as its template applied to 0.0. */
  lemma MissingValuesAreZero(table: Table, record: Record, lib: Library)
    requires RendersZero(lib)
    ensures var q := QueryTokens(table, record, lib);
      forall j :: 0 <= j < |table| && Get(record, table[j].key) == None ==>
        q[j + 1] == table[j].template.field + "=" + ZeroText(table[j].template.conv)
  {
    forall j | 0 <= j < |table| && Get(record, table[j].key) == None
      ensures FieldToken(table[j], record, lib) == table[j].template.field + "=" + ZeroText(table[j].template.conv)
    {
      assert table[j] in table;
      MissingValueIsZero(table[j], record, lib);
    }
  }

  /**
   * The timestamp row: a present timestamp is sent as the encoded local time,
   * a missing one as `datetime=0.0`.
   */
  lemma TimestampToken(record: Record, lib: Library)
    requires RendersZero(lib)
    ensures Get(record, "dateTime") == None ==> FieldToken(DATE_TIME, record, lib) == "datetime=0.0"
    ensures Get(record, "dateTime") != None ==>
      FieldToken(DATE_TIME, record, lib) == "datetime=" + lib.quotePlus(lib.localTime(Get(record, "dateTime").value))
  {
    if Get(record, "dateTime") == None {
      MissingValueIsZero(DATE_TIME, record, lib);
      assert "datetime" + "=" + "0.0" == "datetime=0.0";
    }
  }

  /** A missing barometer reading is sent as `rel_pressure=0.000`. */
  lemma MissingBarometerToken(record: Record, lib: Library)
    requires RendersZero(lib) && Get(record, "barometer") == None
    ensures FieldToken(BAROMETER, record, lib) == "rel_pressure=0.000"
  {
    MissingValueIsZero(BAROMETER, record, lib);
    assert ZeroText(Fixed(3)) == "0.000";
    assert "rel_pressure" + "=" + "0.000" == "rel_pressure=0.000";
  }

  /** Records that agree on the table's keys give the same URL, whatever else they hold. */
  lemma UrlReadsOnlyTableKeys(serverUrl: string, table: Table, r1: Record, r2: Record, lib: Library)
    requires forall e :: e in table ==> Get(r1, e.key) == Get(r2, e.key)
    ensures Url(serverUrl, table, r1, lib) == Url(serverUrl, table, r2, lib)
  {
    assert FieldTokens(table, r1, lib) == FieldTokens(table, r2, lib) by {
      forall j | 0 <= j < |table|
        ensures FieldToken(table[j], r1, lib) == FieldToken(table[j], r2, lib)
      {
        assert table[j] in table;
      }
    }
  }

  /** A record key that no row of the table names has no effect on the URL. */
  lemma UnlistedKeyIgnoredBy(serverUrl: string, table: Table, record: Record, k: string, v: Option<real>, lib: Library)
    requires forall e :: e in table ==> e.key != k
    ensures Url(serverUrl, table, record[k := v], lib) == Url(serverUrl, table, record, lib)
  {
    UrlReadsOnlyTableKeys(serverUrl, table, record[k := v], record, lib);
  }
}
