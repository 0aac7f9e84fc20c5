# Hemna uploader: the URL builder, its log mask and its error rule

This project models the core of a weewx plugin that uploads weather
observations to the Hemna server. The core is `HemnaThread.format_url` in
the two copies of the plugin:

- `bin/user/hemna.py`, the Python 3 copy that the installer deploys;
- `weewx_hemna_plugin/hemna.py`, the Python 2 copy.

For each observation record, `format_url` builds a GET URL:

1. It starts a token list with `target=remote-update`.
2. It walks the 13 rows of `_FORMATS`. For each row it appends `template % value`. It uses `template % 0.0` when the record has no value or holds None. A timestamp is first rendered as a local time and quote-plus encoded.
3. It appends `wind_direction=N`, `tendency=na` and `forecast=na`.
4. It joins the tokens with `&` and puts `server_url + "?"` in front.

When the host's debug level is 2 or more, it also logs the URL. Before logging, a regular expression rewrites every `siteAuthenticationKey=<value>` as `siteAuthenticationKey=XXX`.

The Python 2 copy also has `post_request`. It turns HTTP errors 400 and 403 into `BadLogin` and lets every other failure propagate.

Modules:

- `Wrappers` holds `Option` and `Result`.
- `Query` holds what both copies share:
  - the table, as the datatype `Entry` and the constant `FORMATS`;
  - how one row becomes one token;
  - the token list;
  - `Join` and a reference `Split`, used to state the round trip;
  - the URL as a function, `Url`.
- `LogMask` is the `re.sub` masking and the logged line.
- `UserHemna` is the Python 3 copy. Its `HemnaThread` class stores the settings. Its `FormatUrl` method is the loop, proved against `Url` over `FORMATS` in written order.
- `PluginHemna` is the Python 2 copy:
  - the same loop over the thread's `dictOrder`, which is any rearrangement of the 13 rows;
  - `post_request` as a function of what each `urlopen` call does.

Python's number rendering, `str(float)`, `time.localtime`/`strftime` and
`quote_plus` are the function-valued fields of a `Library` parameter. The
model assumes two things of them:

- `NoAmpersand`: no rendered value contains `&`.
- `RendersZero`: 0.0 is printed as Python prints it (`0.000`, `0`, `0.0`).

The host's `weewx.debug` level is a parameter of `FormatUrl`. The logged line
is returned instead of being written to syslog.

The Python 3 copy walks `_FORMATS` in written (insertion) order. The Python 2
copy walks a Python 2 dictionary, whose order follows key hashes, so
`PluginHemna` is proved for every order of the 13 rows.

## Model

| member | source | states |
|---|---|---|
| Query.FormatsKeysDistinct | bin/user/hemna.py:63-75 | `_FORMATS` has 13 rows and no key appears in two rows |
| Query.QueryTokenLayout | bin/user/hemna.py:107-135 | the token list is the target, one token per row in table order, then `wind_direction=N`, `tendency=na`, `forecast=na`, four more tokens than the table has rows |
| Query.TokensHaveNoAmpersand | bin/user/hemna.py:107-135 | when the library renders nothing with `&`, no token contains `&` |
| Query.JoinAppend | bin/user/hemna.py:138 | joining two non-empty lists puts exactly one `&` between the two joins |
| Query.SplitJoin | bin/user/hemna.py:138 | splitting the `&`-join of `&`-free tokens on `&` gives the tokens back |
| Query.QueryRoundTrip | bin/user/hemna.py:107-138 | the query splits on `&` into exactly the token list: target, one token per row in order, then the three constants |
| Query.QueryEndsWithTrailer | bin/user/hemna.py:128-138 | every query ends with `&wind_direction=N&tendency=na&forecast=na` |
| Query.MissingValueIsZero | bin/user/hemna.py:124-125 | a row whose key is missing or None is sent as `<field>=` followed by Python's rendering of 0.0 under its conversion |
| Query.MissingValuesAreZero | bin/user/hemna.py:111-125 | in any table, every row whose key is missing sends its template applied to 0.0, at that row's position |
| Query.TimestampToken | weewx_hemna_plugin/hemna.py:109-122 | a missing timestamp is sent as `datetime=0.0`; a present one as `datetime=` and the quote-plus encoded local time |
| Query.MissingBarometerToken | bin/user/hemna.py:64 | a missing barometer reading is sent as `rel_pressure=0.000` |
| Query.UrlReadsOnlyTableKeys | bin/user/hemna.py:111-112 | two records that agree on the table's keys give the same URL |
| Query.UnlistedKeyIgnoredBy | bin/user/hemna.py:111-112 | setting a record key that no row names leaves the URL unchanged |
| Query.FieldTokensRemoveAt | weewx_hemna_plugin/hemna.py:108-122 | dropping a row drops exactly its token from the multiset of tokens |
| Query.FieldTokensOfPermutation | weewx_hemna_plugin/hemna.py:108-122 | walking the rows in another order yields the same multiset of tokens |
| Query.QueryTokens | bin/user/hemna.py:107-135 | defines the token list: the target, the row tokens in the walk's order, the three constants |
| Query.FieldToken | bin/user/hemna.py:112-125 | defines one row's token: its template applied to the record's value, to the encoded timestamp, or to 0.0 when the value is missing |
| Query.Argument | bin/user/hemna.py:112-125 | defines the operand of `%`: 0.0 for a missing value, the encoded local time for `dateTime`, the number otherwise |
| Query.Percent | bin/user/hemna.py:123-125 | defines `template % value` for a template `<field>=<conversion>`: the field name, `=`, then the rendered value |
| Query.Join | bin/user/hemna.py:138 | defines `'&'.join(tokens)` |
| Query.Split | bin/user/hemna.py:138 | defines `str.split('&')`, the reference the round trip is stated with; it never returns an empty list and no piece contains `&` |
| Query.Url | bin/user/hemna.py:138-140 | defines the URL: `server_url`, `?`, then the joined token list |
| LogMask.Mask | bin/user/hemna.py:144-145 | defines the `re.sub`: each match of the key and the longest `&`-free run after it becomes `siteAuthenticationKey=XXX`, and the scan resumes after the match |
| PluginHemna.UrlOpen | weewx_hemna_plugin/hemna.py:148-152 | defines the inner `try`: the call with a timeout, and only when that raises `TypeError`, the call without one |
| LogMask.Run | bin/user/hemna.py:144 | `[^&]*` consumes the longest `&`-free prefix: it stops at the end or at an `&` |
| LogMask.MaskIdempotent | bin/user/hemna.py:142-145 | masking a masked string changes nothing |
| LogMask.MaskKeepsKeylessText | bin/user/hemna.py:142-145 | a string without `siteAuthenticationKey=` is left unchanged |
| LogMask.MaskNeverAddsKey | weewx_hemna_plugin/hemna.py:139-142 | masking never increases the number of occurrences of the key |
| LogMask.MaskHidesEveryValue | bin/user/hemna.py:144-145 | in masked text, every occurrence of the key is followed by the value `XXX` |
| LogMask.LogLine | bin/user/hemna.py:142-145 | in the logged line `restx: HEMNA: url: <masked URL>`, every key's value is `XXX` |
| UserHemna.HemnaThread.constructor | bin/user/hemna.py:98-100 | the thread stores station, password and server URL |
| UserHemna.HemnaThread.FormatUrl | bin/user/hemna.py:103-146 | the loop returns `Url` over `_FORMATS` in written order. It reads neither station nor password. It returns the masked log line exactly when the debug level is at least 2 |
| UserHemna.UrlLayout | bin/user/hemna.py:107-140 | the URL is `server_url + "?"` then a query that splits into 17 tokens: the target, the 13 row tokens in written order, the three constants |
| UserHemna.MissingKeysSendZero | bin/user/hemna.py:111-125 | every missing key sends its template applied to 0.0, in particular `datetime=0.0` and `rel_pressure=0.000` |
| UserHemna.SampleRecordTokens | bin/user/hemna.py:63-125 | for a record with only a timestamp and `outTemp=72.5`, the query opens with the target, the encoded timestamp, `rel_pressure=0.000` and the rendered `72.5` |
| UserHemna.UnlistedKeyIgnored | bin/user/hemna.py:111-112 | a record key not in `_FORMATS` has no effect on the URL |
| UserHemna.HemnaThread.FormatUrlAsWritten | bin/user/hemna.py:103-140 | the loop as written: for every record with a timestamp it raises `AttributeError` on `quote_plus` at the first row; without a timestamp it returns the same URL as the corrected `FormatUrl` |
| PluginHemna.DictOrderIsTable | weewx_hemna_plugin/hemna.py:60-72 | any rearrangement of `_FORMATS` has 13 rows, contains every row, and names no key twice |
| PluginHemna.PermutedTable | weewx_hemna_plugin/hemna.py:108 | a rearrangement of a table with distinct keys keeps its rows, its length and its distinct keys |
| PluginHemna.HemnaThread.constructor | weewx_hemna_plugin/hemna.py:95-97 | the thread stores station, password, server URL and its interpreter's dictionary order |
| PluginHemna.HemnaThread.FormatUrl | weewx_hemna_plugin/hemna.py:100-143 | the loop returns `Url` over the dictionary order. It reads neither station nor password. It returns the masked log line exactly when the debug level is at least 2. |
| PluginHemna.UrlLayout | weewx_hemna_plugin/hemna.py:104-137 | for every dictionary order the URL is `server_url + "?"` then 17 tokens: the target, one token per row in that order, the three constants; the query ends with `&wind_direction=N&tendency=na&forecast=na` |
| PluginHemna.EachRowOnce | weewx_hemna_plugin/hemna.py:108-122 | each row of `_FORMATS` sits at exactly one position of the order, and its token is at that position of the query |
| PluginHemna.SameTokensAsWrittenOrder | weewx_hemna_plugin/hemna.py:108-122 | the Python 2 copy sends the same multiset of tokens as the Python 3 copy; only their order may differ |
| PluginHemna.MissingKeysSendZero | weewx_hemna_plugin/hemna.py:109-122 | wherever a missing key's row falls, its token is its template applied to 0.0 |
| PluginHemna.UnlistedKeyIgnored | weewx_hemna_plugin/hemna.py:108-109 | a record key not in `_FORMATS` has no effect on the URL, for every order |
| PluginHemna.PostRequest | weewx_hemna_plugin/hemna.py:145-160 | a response is returned unchanged. HTTP 400 or 403 becomes `BadLogin` around that error, and only those codes do. Every other failure of the effective call propagates unchanged |
| PluginHemna.RetryOnlyAfterTypeError | weewx_hemna_plugin/hemna.py:149-152 | the call without a timeout matters only when the first call raised `TypeError`; a second `TypeError` propagates |
| PluginHemna.BadLoginCodes | weewx_hemna_plugin/hemna.py:153-158 | an HTTP error is a bad login exactly for codes 400 and 403; 401, 404 and 500 propagate |

## Left out

- Host wiring is not modelled: `StdHemna` (event binding, the two queues, thread start-up) and the loop-packet cache `restx.CachedValues`.
- `HemnaThread.__init__` is modelled only as far as storing station, password and server URL. Backlog, staleness, retries and timeouts belong to the host's `restx.RESTThread`.
- The HTTP calls themselves (`requests.get`, `urllib2.urlopen`) are not modelled. `PostRequest` takes what each `urlopen` call returns or raises as a parameter.
- `post_request` of the Python 3 copy (bin/user/hemna.py:148-162) is not modelled. It reads `_res` inside its `except` branch before anything assigns it, and its success path returns None, so it states no usable rule.
- Printf float rendering, `str(float)`, `time.localtime`/`strftime` (time-zone dependent) and `quote_plus` are opaque fields of `Library`. Only `NoAmpersand` and `RendersZero` are assumed of them.
- The concrete CPython 2 hash order of `_FORMATS` is not computed. `PluginHemna` holds for every order of the 13 rows.
- The `weewx.debug` level is a parameter, and `syslog` is not modelled: `FormatUrl` returns the line it would log.
- `install.py` (a configuration dictionary and a version check) and `setup.py` (packaging metadata) are not part of this model.
- UserHemna.HemnaThread.FormatUrl: models the URL the code evidently intends, with a working quote-plus encoder. As written, a record with a timestamp raises instead (see Findings).
- UserHemna.UrlLayout: describes the URL of the corrected encoder. As written, the Python 3 copy builds no URL for a record with a timestamp (see Findings).
- UserHemna.MissingKeysSendZero: describes the tokens of the corrected encoder. As written, the Python 3 copy builds no URL for a record with a timestamp, although the zero tokens of missing keys are as stated.
- UserHemna.SampleRecordTokens: describes the tokens of the corrected encoder. As written, the Python 3 copy raises `AttributeError` for this record, which has a timestamp (see Findings).
- UserHemna.HemnaThread.FormatUrlAsWritten: leaves out the debug log line, which the code as written never reaches for a record with a timestamp.

## Findings

| source | as written | input that shows it | evidently intended | confidence | as-written member | corrected member |
|---|---|---|---|---|---|---|
| bin/user/hemna.py:121 | `urllib.quote_plus(date_str)`, but Python 3's `urllib` has no `quote_plus` (it is `urllib.parse.quote_plus`) | any record with a `dateTime` value, e.g. `{dateTime: 1700000000, outTemp: 72.5}`: `AttributeError` before a URL is built | the encoded local time is sent as `datetime=<encoded>`, as in the Python 2 copy | high, not executed | UserHemna.HemnaThread.FormatUrlAsWritten | UserHemna.HemnaThread.FormatUrl |
