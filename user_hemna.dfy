/**
 * `bin/user/hemna.py`, the copy of the uploader the installer deploys
 * (Python 3). Its `format_url` walks `_FORMATS` in the order the rows are
 * written, since Python 3 dictionaries keep insertion order.
 */
module UserHemna {
  import opened Wrappers
  import opened Query
  import opened LogMask

  /** What `format_url` raises as written. */
  datatype PyError = AttributeError(attribute: string)

  /** The uploader thread: the settings `format_url` can see. */
  class HemnaThread {
    const station: string
    const password: string
    const serverUrl: string

    /** Stores the station, password and server URL; the rest belongs to the host's RESTThread. */
    constructor (station: string, password: string, serverUrl: string)
      ensures this.station == station && this.password == password && this.serverUrl == serverUrl
    {
      this.station := station;
      this.password := password;
      this.serverUrl := serverUrl;
    }

    /**
     * `format_url`: the URL for one record. It is `Url` over the table in
     * written order, which reads neither `station` nor `password`. With the
     * host's debug level at 2 or more, the masked URL is also logged.
     */
    method FormatUrl(record: Record, lib: Library, debug: int) returns (url: string, logged: Option<string>)
      ensures url == Url(serverUrl, FORMATS, record, lib)
      ensures logged == (if debug >= 2 then Some(LogLine(url)) else None)
    {
      var tokens := [TARGET];
      for i := 0 to |FORMATS|
        invariant |tokens| == i + 1 && tokens[0] == TARGET
        invariant forall j :: 0 <= j < i ==> tokens[j + 1] == FieldToken(FORMATS[j], record, lib)
      {
        var entry := FORMATS[i];
        var v := Get(record, entry.key);
        if v != None {
          var arg := Num(v.value);
          if entry.key == "dateTime" {
            arg := Text(EncodeTimestamp(lib, v.value));
          }
          tokens := tokens + [Percent(entry.template, arg, lib)];
        } else {
          tokens := tokens + [Percent(entry.template, Num(0.0), lib)];
        }
        assert tokens[i + 1] == FieldToken(entry, record, lib);
      }
      tokens := tokens + ["wind_direction=N"];
      tokens := tokens + ["tendency=na"];
      tokens := tokens + ["forecast=na"];
      QueryTokensByParts(FORMATS, record, lib, tokens);
      var query := Join(tokens);
      url := serverUrl + "?" + query;
      logged := None;
      if debug >= 2 {
        logged := Some(LogLine(url));
      }
    }

    /**
     * `format_url` as written. Its present-timestamp branch calls
     * `urllib.quote_plus`, which Python 3's `urllib` does not have, so that
     * branch raises `AttributeError` and no URL is returned.
     */
    method FormatUrlAsWritten(record: Record, lib: Library) returns (r: Result<string, PyError>)
      ensures Get(record, "dateTime") != None ==> r == Failure(AttributeError("quote_plus"))
      ensures Get(record, "dateTime") == None ==> r == Success(Url(serverUrl, FORMATS, record, lib))
    {
      var tokens := [TARGET];
      for i := 0 to |FORMATS|
        invariant |tokens| == i + 1 && tokens[0] == TARGET
        invariant forall j :: 0 <= j < i ==> tokens[j + 1] == FieldToken(FORMATS[j], record, lib)
        invariant i > 0 ==> Get(record, "dateTime") == None
      {
        var entry := FORMATS[i];
        var v := Get(record, entry.key);
        if v != None {
          if entry.key == "dateTime" {
            return Failure(AttributeError("quote_plus"));
          }
          tokens := tokens + [Percent(entry.template, Num(v.value), lib)];
        } else {
          tokens := tokens + [Percent(entry.template, Num(0.0), lib)];
        }
        assert tokens[i + 1] == FieldToken(entry, record, lib);
      }
      tokens := tokens + ["wind_direction=N"];
      tokens := tokens + ["tendency=na"];
      tokens := tokens + ["forecast=na"];
      QueryTokensByParts(FORMATS, record, lib, tokens);
      r := Success(serverUrl + "?" + Join(tokens));
    }
  }

  /**
   * The URL is the server URL, `?`, then a query that splits on `&` into 17
   * tokens: the target, one token per row of `_FORMATS` in written order,
   * and the three constants.
   */
  lemma UrlLayout(serverUrl: string, record: Record, lib: Library)
    requires NoAmpersand(lib)
    ensures var url := Url(serverUrl, FORMATS, record, lib);
      && url[..|serverUrl| + 1] == serverUrl + "?"
      && var q := Split(url[|serverUrl| + 1..]);
      && |q| == 17
      && q[0] == TARGET
      && (forall j :: 0 <= j < 13 ==> q[j + 1] == FieldToken(FORMATS[j], record, lib))
      && q[14..] == TRAILER
  {
    QueryRoundTrip(FORMATS, record, lib);
    var url := Url(serverUrl, FORMATS, record, lib);
    assert url[|serverUrl| + 1..] == Join(QueryTokens(FORMATS, record, lib));
  }

  /** A key missing from the record is sent as its template applied to 0.0. */
  lemma MissingKeysSendZero(record: Record, lib: Library)
    requires RendersZero(lib)
    ensures var q := QueryTokens(FORMATS, record, lib);
      && (forall j :: 0 <= j < 13 && Get(record, FORMATS[j].key) == None ==>
            q[j + 1] == FORMATS[j].template.field + "=" + ZeroText(FORMATS[j].template.conv))
      && (Get(record, "dateTime") == None ==> q[1] == "datetime=0.0")
      && (Get(record, "barometer") == None ==> q[2] == "rel_pressure=0.000")
  {
    FormatsKeysDistinct();
    MissingValuesAreZero(FORMATS, record, lib);
    TimestampToken(record, lib);
    if Get(record, "barometer") == None {
      MissingBarometerToken(record, lib);
    }
  }

  /** A record with a timestamp and an outside temperature only. */
  function SampleRecord(): Record
  {
    map["dateTime" := Some(1700000000.0), "outTemp" := Some(72.5)]
  }

  /**
   * For the sample record the query opens with the target, the encoded
   * timestamp, the zero rendering of the missing barometer and the rendered
   * outside temperature, in table order.
   */
  lemma SampleRecordTokens(lib: Library)
    requires RendersZero(lib)
    ensures var q := QueryTokens(FORMATS, SampleRecord(), lib);
      && |q| == 17
      && q[0] == "target=remote-update"
      && q[1] == "datetime=" + lib.quotePlus(lib.localTime(1700000000.0))
      && q[2] == "rel_pressure=0.000"
      && q[3] == "temp_out=" + lib.fixed(1, 72.5)
  {
    var r := SampleRecord();
    var q := QueryTokens(FORMATS, r, lib);
    assert q[1] == FieldToken(DATE_TIME, r, lib);
    assert q[2] == FieldToken(BAROMETER, r, lib);
    assert q[3] == FieldToken(OUT_TEMP, r, lib);
    assert Get(r, "dateTime") == Some(1700000000.0);
    TimestampToken(r, lib);
    assert Get(r, "barometer") == None;
    MissingBarometerToken(r, lib);
    assert Get(r, "outTemp") == Some(72.5);
  }

  /** A record key that is not in `_FORMATS` has no effect on the URL. */
  lemma UnlistedKeyIgnored(serverUrl: string, record: Record, k: string, v: Option<real>, lib: Library)
    requires forall e :: e in FORMATS ==> e.key != k
    ensures Url(serverUrl, FORMATS, record[k := v], lib) == Url(serverUrl, FORMATS, record, lib)
  {
    UnlistedKeyIgnoredBy(serverUrl, FORMATS, record, k, v, lib);
  }
}
