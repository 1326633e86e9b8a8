/** Magnet URIs: parsing and canonical printing (magnet.py, on top of urllib.parse). */
module Magnet {
  import opened Wrappers
  import opened Btih
  import Text
  import Paths

  type Pair = (string, string)

  datatype Magnet = Magnet(btih: string, parameters: seq<Pair>)

  /** Python's `s.partition(c)`: what precedes the first separator, whether there is one, the rest. */
  function Partition(s: string, c: char): (string, bool, string) {
    if |s| == 0 then ("", false, "")
    else if s[0] == c then ("", true, s[1..])
    else
      var (before, found, after) := Partition(s[1..], c);
      ([s[0]] + before, found, after)
  }

  /** Case-insensitive comparison with a lower-case ASCII word. */
  predicate Names(s: string, word: string) {
    LowerAll(s) == word
  }

  // ---- urlsplit ----

  function DropControls(s: string): string {
    if |s| != 0 && s[0] <= ' ' then DropControls(s[1..]) else s
  }

  function DropBreaks(s: string): string {
    if |s| == 0 then ""
    else (if s[0] == '\t' || s[0] == '\r' || s[0] == '\n' then "" else [s[0]]) + DropBreaks(s[1..])
  }

  predicate SchemeChar(c: char) {
    'a' <= Lower(c) <= 'z' || '0' <= c <= '9' || c == '+' || c == '-' || c == '.'
  }

  function UntilDelimiter(s: string): string {
    if |s| == 0 || s[0] == '/' || s[0] == '?' || s[0] == '#' then "" else [s[0]] + UntilDelimiter(s[1..])
  }

  datatype Url = Url(scheme: string, query: string)

  /** `urlsplit`, as far as the scheme and the query go. */
  function UrlSplit(uri: string): Result<Url, MagnetError> {
    var url := DropBreaks(DropControls(uri));
    var (head, found, tail) := Partition(url, ':');
    var hasScheme := found && |head| > 0 && 'a' <= Lower(head[0]) <= 'z'
                     && forall i :: 0 <= i < |head| ==> SchemeChar(head[i]);
    var scheme := if hasScheme then LowerAll(head) else "";
    var rest := if hasScheme then tail else url;
    var netloc := if "//" <= rest then UntilDelimiter(rest[2..]) else "";
    if ('[' in netloc) != (']' in netloc) then Err(InvalidUri)
    else
      var beforeFragment := Partition(rest, '#').0;
      Ok(Url(scheme, Partition(beforeFragment, '?').2))
  }

  // ---- parse_qsl and urlencode ----

  function ParseFields(fields: seq<string>): seq<Pair> {
    if |fields| == 0 then []
    else if fields[0] == "" then ParseFields(fields[1..])
    else
      var (key, _, value) := Partition(fields[0], '=');
      [(Text.FormDecode(key), Text.FormDecode(value))] + ParseFields(fields[1..])
  }

  /** `parse_qsl(query, keep_blank_values=True)`. */
  function ParseQuery(query: string): seq<Pair> {
    ParseFields(Paths.Split(query, '&'))
  }

  function PrintField(pair: Pair): string {
    Text.QuotePlus(pair.0) + "=" + Text.QuotePlus(pair.1)
  }

  function PrintFields(pairs: seq<Pair>): seq<string> {
    if |pairs| == 0 then [] else [PrintField(pairs[0])] + PrintFields(pairs[1..])
  }

  /** `urlencode`. */
  function UrlEncode(pairs: seq<Pair>): string {
    Paths.Join(PrintFields(pairs), '&')
  }

  // ---- The magnet itself ----

  /** The hash after `urn:btih:`, if a value is written that way. */
  function BtihOfUrn(value: string): Option<string> {
    var (prefix, separator, rest) := Partition(value, ':');
    if !Names(prefix, "urn") || !separator then None
    else
      var (kind, separator', hash) := Partition(rest, ':');
      if Names(kind, "btih") && separator' then Some(hash) else None
  }

  /** The hash carried by an `xt=urn:btih:...` field, if the field is one. */
  function RawBtih(pair: Pair): Option<string> {
    if Names(pair.0, "xt") then BtihOfUrn(pair.1) else None
  }

  function RawBtihs(pairs: seq<Pair>): seq<string> {
    if |pairs| == 0 then []
    else (if RawBtih(pairs[0]).Some? then [RawBtih(pairs[0]).value] else []) + RawBtihs(pairs[1..])
  }

  function Parameters(pairs: seq<Pair>): seq<Pair> {
    if |pairs| == 0 then []
    else (if RawBtih(pairs[0]).Some? then [] else [pairs[0]]) + Parameters(pairs[1..])
  }

  /** The one hash all raw values agree on. */
  function CommonBtih(raw: seq<string>): Result<string, MagnetError> {
    if |raw| == 0 then Err(MissingBtih)
    else
      var first := NormalizeBtih(raw[0]);
      if first.Err? || |raw| == 1 then first
      else
        var rest := CommonBtih(raw[1..]);
        if rest.Err? then rest
        else if rest.value != first.value then Err(ConflictingBtih) else first
  }

  /** `parse_magnet`. */
  function ParseMagnet(uri: string): Result<Magnet, MagnetError> {
    var url := UrlSplit(uri);
    if url.Err? then Err(url.error)
    else if !Names(url.value.scheme, "magnet") then Err(WrongScheme)
    else
      var pairs := ParseQuery(url.value.query);
      var btih := CommonBtih(RawBtihs(pairs));
      if btih.Err? then Err(btih.error) else Ok(Magnet(btih.value, Parameters(pairs)))
  }

  /** `Magnet.canonical_uri`. */
  function CanonicalUri(m: Magnet): string {
    var canonical := "magnet:?xt=urn:btih:" + m.btih;
    if |m.parameters| == 0 then canonical else canonical + "&" + UrlEncode(m.parameters)
  }

  lemma {:induction false} ScanStep(pairs: seq<Pair>, i: nat)
    requires i < |pairs|
    ensures RawBtihs(pairs[..i + 1]) ==
            RawBtihs(pairs[..i]) + if RawBtih(pairs[i]).Some? then [RawBtih(pairs[i]).value] else []
    ensures Parameters(pairs[..i + 1]) ==
            Parameters(pairs[..i]) + if RawBtih(pairs[i]).Some? then [] else [pairs[i]]
  {
    hide RawBtih;
    if i == 0 {
      assert pairs[..1] == [pairs[0]] && pairs[..0] == [];
    } else {
      ScanStep(pairs[1..], i - 1);
      assert pairs[..i + 1][1..] == pairs[1..][..i];
      assert pairs[..i][1..] == pairs[1..][..i - 1];
    }
  }

  /** The scanning loop of `parse_magnet`, field by field. */
  method ScanFields(pairs: seq<Pair>) returns (raw: seq<string>, parameters: seq<Pair>)
    ensures raw == RawBtihs(pairs) && parameters == Parameters(pairs)
  {
    raw, parameters := [], [];
    for i := 0 to |pairs|
      invariant raw == RawBtihs(pairs[..i]) && parameters == Parameters(pairs[..i])
    {
      ScanStep(pairs, i);
      var (key, value) := pairs[i];
      if !Names(key, "xt") {
        parameters := parameters + [(key, value)];
        continue;
      }
      var (prefix, separator, rest) := Partition(value, ':');
      if !Names(prefix, "urn") || !separator {
        parameters := parameters + [(key, value)];
        continue;
      }
      var (kind, separator', hash) := Partition(rest, ':');
      if Names(kind, "btih") && separator' {
        raw := raw + [hash];
      } else {
        parameters := parameters + [(key, value)];
      }
    }
    assert pairs[..|pairs|] == pairs;
  }

  // ---- Printing, then parsing ----

  lemma {:induction false} PartitionAt(a: string, c: char, b: string)
    requires c !in a
    ensures Partition(a + [c] + b, c) == (a, true, b)
  {
    if |a| == 0 {
      assert (a + [c] + b)[1..] == b;
    } else {
      assert (a + [c] + b)[1..] == a[1..] + [c] + b;
      PartitionAt(a[1..], c, b);
      assert a == [a[0]] + a[1..];
    }
  }

  lemma {:induction false} PartitionNone(a: string, c: char)
    requires c !in a
    ensures Partition(a, c) == (a, false, "")
  {
    if |a| != 0 {
      PartitionNone(a[1..], c);
      assert a == [a[0]] + a[1..];
    }
  }

  lemma {:induction false} DropNothing(s: string)
    requires forall i :: 0 <= i < |s| ==> s[i] > ' '
    ensures DropControls(s) == s && DropBreaks(s) == s
  {
    if |s| != 0 {
      DropNothing(s[1..]);
      assert s == [s[0]] + s[1..];
    }
  }

  /** Characters a printed field is made of. */
  ghost predicate FieldChar(c: char) {
    Text.QuotedChar(c) || c == '+' || c == '=' || c == ':'
  }

  ghost predicate FieldText(s: string) {
    forall i :: 0 <= i < |s| ==> FieldChar(s[i])
  }

  ghost predicate QueryText(s: string) {
    forall i :: 0 <= i < |s| ==> FieldChar(s[i]) || s[i] == '&'
  }

  lemma FieldTextConcat(a: string, b: string)
    requires FieldText(a) && FieldText(b)
    ensures FieldText(a + b)
  {
  }

  lemma FieldTextExcludes(s: string)
    requires FieldText(s)
    ensures QueryText(s) && '&' !in s
  {
  }

  lemma LowerAllWord()
    ensures LowerAll("magnet") == "magnet" && LowerAll("xt") == "xt"
    ensures LowerAll("urn") == "urn" && LowerAll("btih") == "btih"
  {
  }

  lemma CanonicalScheme(query: string)
    requires QueryText(query)
    ensures DropBreaks(DropControls("magnet:?" + query)) == "magnet:?" + query
    ensures Partition("magnet:?" + query, ':') == ("magnet", true, "?" + query)
  {
    hide DropBreaks, DropControls, Partition;
    var uri := "magnet:?" + query;
    DropNothing(uri);
    assert uri == "magnet" + [':'] + ("?" + query);
    PartitionAt("magnet", ':', "?" + query);
  }

  lemma CanonicalRest(query: string)
    requires QueryText(query)
    ensures Partition("?" + query, '#').0 == "?" + query
    ensures Partition("?" + query, '?').2 == query
  {
    PartitionNone("?" + query, '#');
    assert "?" + query == "" + ['?'] + query;
    PartitionAt("", '?', query);
  }

  /** The scheme and the query of a canonical URI come back unchanged. */
  lemma SplitCanonical(query: string)
    requires QueryText(query)
    ensures UrlSplit("magnet:?" + query) == Ok(Url("magnet", query))
  {
    hide DropBreaks, DropControls, Partition, LowerAll;
    CanonicalScheme(query);
    CanonicalRest(query);
    LowerAllWord();
    assert ("?" + query)[0] == '?' && !("//" <= "?" + query);
  }

  lemma PrintedText(s: string)
    ensures FieldText(Text.QuotePlus(s)) && '=' !in Text.QuotePlus(s)
  {
    Text.QuotePlusChars(s);
  }

  lemma FieldRoundTrip(pair: Pair)
    ensures PrintField(pair) != "" && FieldText(PrintField(pair))
    ensures var (key, found, value) := Partition(PrintField(pair), '=');
            (Text.FormDecode(key), Text.FormDecode(value)) == pair
  {
    PrintedText(pair.0);
    PrintedText(pair.1);
    FieldTextConcat(Text.QuotePlus(pair.0), "=");
    FieldTextConcat(Text.QuotePlus(pair.0) + "=", Text.QuotePlus(pair.1));
    PartitionAt(Text.QuotePlus(pair.0), '=', Text.QuotePlus(pair.1));
    Text.FormRoundTrip(pair.0);
    Text.FormRoundTrip(pair.1);
  }

  lemma {:induction false} FieldsRoundTrip(pairs: seq<Pair>)
    ensures |PrintFields(pairs)| == |pairs|
    ensures forall i :: 0 <= i < |pairs| ==> FieldText(PrintFields(pairs)[i])
    ensures ParseFields(PrintFields(pairs)) == pairs
  {
    if |pairs| != 0 {
      FieldRoundTrip(pairs[0]);
      FieldsRoundTrip(pairs[1..]);
      assert PrintFields(pairs)[1..] == PrintFields(pairs[1..]);
      assert pairs == [pairs[0]] + pairs[1..];
    }
  }

  lemma {:induction false} JoinedQueryText(parts: seq<string>)
    requires forall i :: 0 <= i < |parts| ==> QueryText(parts[i])
    ensures QueryText(Paths.Join(parts, '&'))
  {
    if |parts| > 1 {
      JoinedQueryText(parts[1..]);
    }
  }

  /** Printing and reading back a list of parameters, whatever Unicode text they hold. */
  lemma QueryRoundTrip(pairs: seq<Pair>)
    requires |pairs| > 0
    ensures QueryText(UrlEncode(pairs)) && ParseQuery(UrlEncode(pairs)) == pairs
  {
    FieldsRoundTrip(pairs);
    forall i | 0 <= i < |pairs|
      ensures QueryText(PrintFields(pairs)[i]) && '&' !in PrintFields(pairs)[i]
    {
      FieldTextExcludes(PrintFields(pairs)[i]);
    }
    JoinedQueryText(PrintFields(pairs));
    Paths.SplitJoin(PrintFields(pairs), '&');
  }

  ghost predicate PlainText(s: string) {
    forall i :: 0 <= i < |s| ==> s[i] < '\U{80}' && s[i] != '%' && s[i] != '+'
  }

  lemma PlainDecode(s: string)
    requires PlainText(s)
    ensures Text.FormDecode(s) == s
  {
    Text.PlusToSpaceIdentity(s);
    Text.UnquoteAscii(s);
    PlainBytes(s);
  }

  lemma {:induction false} PlainBytes(s: string)
    requires forall i :: 0 <= i < |s| ==> s[i] < '\U{80}' && s[i] != '%'
    ensures Text.DecodeAll(Text.UnquoteBytes(s)) == s
  {
    if |s| != 0 {
      PlainBytes(s[1..]);
      var bytes := Text.UnquoteBytes(s);
      assert bytes[1..] == Text.UnquoteBytes(s[1..]);
      assert s == [s[0]] + s[1..];
    }
  }

  lemma PlainField(key: string, value: string)
    requires PlainText(key) && PlainText(value) && '=' !in key
    ensures ParseFields([key + "=" + value]) == [(key, value)]
  {
    PartitionAt(key, '=', value);
    PlainDecode(key);
    PlainDecode(value);
    var fields := [key + "=" + value];
    assert fields[1..] == [];
  }

  lemma UrnOfBtih(btih: string)
    requires ':' !in btih
    ensures BtihOfUrn("urn:btih:" + btih) == Some(btih)
  {
    assert "urn:btih:" + btih == "urn" + [':'] + ("btih:" + btih);
    PartitionAt("urn", ':', "btih:" + btih);
    assert "btih:" + btih == "btih" + [':'] + btih;
    PartitionAt("btih", ':', btih);
    LowerAllWord();
  }

  /** The hash field of a canonical URI is read as that hash. */
  lemma HashField(btih: string)
    requires NormalBtih(btih)
    ensures FieldText("xt=urn:btih:" + btih)
    ensures ParseFields(["xt=urn:btih:" + btih]) == [("xt", "urn:btih:" + btih)]
    ensures RawBtih(("xt", "urn:btih:" + btih)) == Some(btih)
  {
    hide ParseFields, BtihOfUrn, LowerAll;
    FieldTextConcat("xt=urn:btih:", btih);
    PlainField("xt", "urn:btih:" + btih);
    assert "xt=urn:btih:" + btih == "xt" + "=" + ("urn:btih:" + btih);
    UrnOfBtih(btih);
    LowerAllWord();
  }

  lemma {:induction false} KeptAreParameters(pairs: seq<Pair>)
    ensures forall i :: 0 <= i < |Parameters(pairs)| ==> RawBtih(Parameters(pairs)[i]).None?
  {
    if |pairs| != 0 {
      KeptAreParameters(pairs[1..]);
    }
  }

  lemma {:induction false} ParametersStay(pairs: seq<Pair>)
    requires forall i :: 0 <= i < |pairs| ==> RawBtih(pairs[i]).None?
    ensures Parameters(pairs) == pairs && RawBtihs(pairs) == []
  {
    if |pairs| != 0 {
      ParametersStay(pairs[1..]);
      assert pairs == [pairs[0]] + pairs[1..];
    }
  }

  lemma {:induction false} CommonIsNormal(raw: seq<string>)
    requires CommonBtih(raw).Ok?
    ensures NormalBtih(CommonBtih(raw).value)
  {
  }

  lemma {:induction false} ParseFieldsConcat(a: seq<string>, b: seq<string>)
    ensures ParseFields(a + b) == ParseFields(a) + ParseFields(b)
  {
    if |a| == 0 {
      assert a + b == b;
    } else {
      assert (a + b)[1..] == a[1..] + b;
      ParseFieldsConcat(a[1..], b);
    }
  }

  /** Magnets that a parse can return: a normal hash, and parameters that are not hash fields. */
  ghost predicate Parsed(m: Magnet) {
    NormalBtih(m.btih) && forall i :: 0 <= i < |m.parameters| ==> RawBtih(m.parameters[i]).None?
  }

  ghost predicate CanonicalParts(m: Magnet, query: string) {
    && CanonicalUri(m) == "magnet:?" + query
    && QueryText(query)
    && ParseQuery(query) == [("xt", "urn:btih:" + m.btih)] + m.parameters
  }

  lemma CanonicalText(btih: string, tail: string)
    ensures "magnet:?xt=urn:btih:" + btih + tail == "magnet:?" + ("xt=urn:btih:" + btih + tail)
  {
    var scheme, field := "magnet:?", "xt=urn:btih:";
    assert "magnet:?xt=urn:btih:" == scheme + field;
    Text.Associate(scheme, field, btih);
    Text.Associate(scheme, field + btih, tail);
  }

  lemma FieldThenRest(field: string, parameters: seq<Pair>)
    requires FieldText(field) && field != "" && |parameters| > 0
    ensures QueryText(field + ("&" + UrlEncode(parameters)))
    ensures ParseQuery(field + ("&" + UrlEncode(parameters))) == ParseFields([field]) + parameters
  {
    var printed := UrlEncode(parameters);
    FieldTextExcludes(field);
    QueryRoundTrip(parameters);
    Paths.SplitWithout(field, '&');
    Paths.SplitConcat(field, '&', printed);
    Text.Associate(field, "&", printed);
    ParseFieldsConcat([field], Paths.Split(printed, '&'));
  }

  lemma BareCanonical(m: Magnet)
    requires Parsed(m) && |m.parameters| == 0
    ensures CanonicalParts(m, "xt=urn:btih:" + m.btih)
  {
    hide ParseFields, BtihOfUrn, LowerAll, RawBtih, Paths.Split;
    var field := "xt=urn:btih:" + m.btih;
    HashField(m.btih);
    FieldTextExcludes(field);
    Paths.SplitWithout(field, '&');
    Text.Associate("magnet:?", "xt=urn:btih:", m.btih);
    assert "magnet:?xt=urn:btih:" == "magnet:?" + "xt=urn:btih:";
  }

  lemma FullCanonical(m: Magnet, tail: string)
    requires Parsed(m) && |m.parameters| > 0 && tail == "&" + UrlEncode(m.parameters)
    ensures CanonicalParts(m, "xt=urn:btih:" + m.btih + tail)
  {
    HashField(m.btih);
    FieldThenRest("xt=urn:btih:" + m.btih, m.parameters);
    Text.Associate("magnet:?xt=urn:btih:" + m.btih, "&", UrlEncode(m.parameters));
    CanonicalText(m.btih, tail);
  }

  lemma CanonicalQuery(m: Magnet)
    requires Parsed(m)
    ensures exists query :: CanonicalParts(m, query)
  {
    if |m.parameters| == 0 {
      BareCanonical(m);
    } else {
      FullCanonical(m, "&" + UrlEncode(m.parameters));
    }
  }

  lemma ScanCanonical(m: Magnet)
    requires Parsed(m)
    ensures var pairs := [("xt", "urn:btih:" + m.btih)] + m.parameters;
            RawBtihs(pairs) == [m.btih] && Parameters(pairs) == m.parameters
  {
    HashField(m.btih);
    ParametersStay(m.parameters);
    var pairs := [("xt", "urn:btih:" + m.btih)] + m.parameters;
    assert pairs[1..] == m.parameters;
  }

  lemma ParseFromParts(uri: string, query: string, btih: string)
    requires UrlSplit(uri) == Ok(Url("magnet", query))
    requires CommonBtih(RawBtihs(ParseQuery(query))) == Ok(btih)
    ensures ParseMagnet(uri) == Ok(Magnet(btih, Parameters(ParseQuery(query))))
  {
    LowerAllWord();
  }

  lemma SingleCommon(btih: string)
    requires NormalBtih(btih)
    ensures CommonBtih([btih]) == Ok(btih)
  {
    NormalizeIdempotent(btih);
  }

  /** Any parsed magnet is recovered from its canonical URI: same hash, same parameters, same order. */
  lemma ParseCanonical(m: Magnet)
    requires Parsed(m)
    ensures ParseMagnet(CanonicalUri(m)) == Ok(m)
  {
    CanonicalQuery(m);
    var query :| CanonicalParts(m, query);
    SplitCanonical(query);
    ScanCanonical(m);
    SingleCommon(m.btih);
    ParseFromParts(CanonicalUri(m), query, m.btih);
  }

  /** The law of the codec: printing then parsing is the identity on whatever was parsed. */
  lemma ParsePrintParse(uri: string)
    requires ParseMagnet(uri).Ok?
    ensures ParseMagnet(CanonicalUri(ParseMagnet(uri).value)) == ParseMagnet(uri)
  {
    var pairs := ParseQuery(UrlSplit(uri).value.query);
    CommonIsNormal(RawBtihs(pairs));
    KeptAreParameters(pairs);
    ParseCanonical(ParseMagnet(uri).value);
  }

  /** A bare hash link parses to that hash alone. */
  lemma ParseBareLink(btih: string)
    requires NormalBtih(btih)
    ensures ParseMagnet("magnet:?xt=urn:btih:" + btih) == Ok(Magnet(btih, []))
  {
    ParseCanonical(Magnet(btih, []));
  }

  /** All values can be read as a hash, and as the same one. */
  ghost predicate Agreeing(raw: seq<string>) {
    raw != [] && forall i :: 0 <= i < |raw| ==> Denoted(raw[i]).Some? && Denoted(raw[i]) == Denoted(raw[0])
  }

  /**
   * The hash fields of a link are accepted exactly when all of them denote the same 160 bits, and then the
   * hash does too.
   */
  lemma {:induction false} CommonIff(raw: seq<string>)
    ensures CommonBtih(raw).Ok? <==> Agreeing(raw)
    ensures CommonBtih(raw).Ok? ==>
              CommonBtih(raw) == NormalizeBtih(raw[0])
              && Denoted(raw[0]) == Some(Value(16, HexDigits(CommonBtih(raw).value)))
  {
    hide Denoted, NormalizeBtih, HexDigits, Value;
    if |raw| > 0 {
      Readable(raw[0]);
      if |raw| > 1 {
        CommonIff(raw[1..]);
        Readable(raw[1]);
        if NormalizeBtih(raw[0]).Ok? && NormalizeBtih(raw[1]).Ok? {
          NormalizeIdentifiesBits(raw[0], raw[1]);
        }
        if Agreeing(raw) {
          forall i | 0 <= i < |raw[1..]|
            ensures Denoted(raw[1..][i]).Some? && Denoted(raw[1..][i]) == Denoted(raw[1..][0])
          {
            assert raw[1..][i] == raw[i + 1];
          }
        }
        if Agreeing(raw[1..]) && Denoted(raw[0]) == Denoted(raw[1]) {
          forall i | 0 <= i < |raw| ensures Denoted(raw[i]).Some? && Denoted(raw[i]) == Denoted(raw[0]) {
            if i > 0 { assert raw[i] == raw[1..][i - 1]; }
          }
        }
      }
    }
  }

  lemma Readable(value: string)
    ensures NormalizeBtih(value).Ok? <==> Denoted(value).Some?
    ensures NormalizeBtih(value).Ok? ==> Denoted(value) == Some(Value(16, HexDigits(NormalizeBtih(value).value)))
  {
    if NormalizeBtih(value).Ok? {
      NormalizeKeepsBits(value);
    }
  }

  /**
   * A link is accepted exactly when it splits, its scheme is `magnet`, and its hash fields agree; the first of these
   * that fails says why it is refused.
   */
  lemma AcceptedIff(uri: string)
    ensures ParseMagnet(uri).Ok? <==>
              && UrlSplit(uri).Ok? && LowerAll(UrlSplit(uri).value.scheme) == "magnet"
              && Agreeing(RawBtihs(ParseQuery(UrlSplit(uri).value.query)))
    ensures ParseMagnet(uri) == Err(InvalidUri) <==> UrlSplit(uri).Err?
    ensures ParseMagnet(uri) == Err(WrongScheme) <==>
              UrlSplit(uri).Ok? && LowerAll(UrlSplit(uri).value.scheme) != "magnet"
    ensures UrlSplit(uri).Ok? && LowerAll(UrlSplit(uri).value.scheme) == "magnet" ==>
              var pairs := ParseQuery(UrlSplit(uri).value.query);
              && (ParseMagnet(uri).Err? ==> ParseMagnet(uri).error in {MissingBtih, InvalidBtih, ConflictingBtih}
                                            && CommonBtih(RawBtihs(pairs)) == Err(ParseMagnet(uri).error))
              && (ParseMagnet(uri).Ok? ==> ParseMagnet(uri).value.parameters == Parameters(pairs))
  {
    hide UrlSplit, ParseQuery, CommonBtih, Agreeing, RawBtihs;
    SplitErrors(uri);
    if UrlSplit(uri).Ok? {
      CommonIff(RawBtihs(ParseQuery(UrlSplit(uri).value.query)));
      UnreadableIff(RawBtihs(ParseQuery(UrlSplit(uri).value.query)));
    }
  }

  lemma SplitErrors(uri: string)
    ensures UrlSplit(uri).Err? ==> UrlSplit(uri) == Err(InvalidUri)
  {
    hide DropBreaks, DropControls, Partition, LowerAll;
  }

  // ---- What is read from a link ----

  /** Splitting at the first separator, if there is one. */
  lemma {:induction false} PartitionMeans(s: string, c: char)
    ensures var (before, found, after) := Partition(s, c);
            && c !in before
            && (if found then s == before + [c] + after else s == before && after == "")
  {
    if |s| != 0 && s[0] != c {
      PartitionMeans(s[1..], c);
      var (before, found, after) := Partition(s[1..], c);
      assert s == [s[0]] + s[1..];
      assert found ==> s == [s[0]] + before + [c] + after;
    }
  }

  lemma LowerKeeps(s: string, word: string, c: char)
    requires LowerAll(s) == word && c in s && Lower(c) == c
    ensures c in word
  {
    var i :| 0 <= i < |s| && s[i] == c;
    assert word[i] == c;
  }

  /** A value names a hash exactly if it reads `urn:btih:` and the hash, in any case. */
  lemma BtihOfUrnIff(value: string, hash: string)
    ensures BtihOfUrn(value) == Some(hash) <==>
              exists urn, kind :: value == urn + ":" + kind + ":" + hash && LowerAll(urn) == "urn"
                                  && LowerAll(kind) == "btih"
  {
    hide LowerAll, Partition;
    var (prefix, separator, rest) := Partition(value, ':');
    PartitionMeans(value, ':');
    var (kind, separator', hash') := Partition(rest, ':');
    PartitionMeans(rest, ':');
    if BtihOfUrn(value) == Some(hash) {
      assert value == prefix + ":" + (kind + ":" + hash);
      assert value == prefix + ":" + kind + ":" + hash;
    }
    if urn, k :| value == urn + ":" + k + ":" + hash && LowerAll(urn) == "urn" && LowerAll(k) == "btih" {
      if ':' in urn { LowerKeeps(urn, "urn", ':'); }
      if ':' in k { LowerKeeps(k, "btih", ':'); }
      assert value == urn + [':'] + (k + ":" + hash);
      PartitionAt(urn, ':', k + ":" + hash);
      assert k + ":" + hash == k + [':'] + hash;
      PartitionAt(k, ':', hash);
    }
  }

  /** A field is a hash field exactly if it is called `xt`, in any case, and its value names a hash. */
  lemma HashFieldIff(pair: Pair, hash: string)
    ensures RawBtih(pair) == Some(hash) <==>
              && LowerAll(pair.0) == "xt"
              && exists urn, kind :: pair.1 == urn + ":" + kind + ":" + hash && LowerAll(urn) == "urn"
                                     && LowerAll(kind) == "btih"
  {
    hide LowerAll, BtihOfUrn;
    BtihOfUrnIff(pair.1, hash);
  }

  /** The hash fields' values in order, and all other fields in order. */
  lemma {:induction false} FieldsMean(pairs: seq<Pair>)
    ensures forall hash :: hash in RawBtihs(pairs) <==> exists i :: 0 <= i < |pairs| && RawBtih(pairs[i]) == Some(hash)
    ensures forall p :: p in Parameters(pairs) <==> p in pairs && RawBtih(p).None?
    ensures |RawBtihs(pairs)| + |Parameters(pairs)| == |pairs|
  {
    hide RawBtih;
    if |pairs| != 0 {
      var rest := pairs[1..];
      FieldsMean(rest);
      assert pairs == [pairs[0]] + rest;
      forall hash ensures hash in RawBtihs(pairs) <==> exists i :: 0 <= i < |pairs| && RawBtih(pairs[i]) == Some(hash) {
        if i :| 0 <= i < |rest| && RawBtih(rest[i]) == Some(hash) {
          assert RawBtih(pairs[i + 1]) == Some(hash);
        }
        if i :| 0 <= i < |pairs| && RawBtih(pairs[i]) == Some(hash) {
          assert i > 0 ==> RawBtih(rest[i - 1]) == Some(hash);
        }
      }
    }
  }

  ghost predicate NoneOf(s: string, chars: string) {
    forall i :: 0 <= i < |s| ==> s[i] !in chars
  }

  /** The query of a link: after the first question mark, up to a fragment, whatever the case of the scheme. */
  lemma UrlSplitMeans(scheme: string, path: string, query: string, fragment: string)
    requires |scheme| > 0 && 'a' <= Lower(scheme[0]) <= 'z' && forall i :: 0 <= i < |scheme| ==> SchemeChar(scheme[i])
    requires NoneOf(path, "?#") && NoneOf(query, "#") && !("//" <= path)
    requires fragment == "" || fragment[0] == '#'
    requires var rest := path + "?" + query + fragment; forall i :: 0 <= i < |rest| ==> rest[i] > ' '
    ensures UrlSplit(scheme + ":" + (path + "?" + query + fragment)) == Ok(Url(LowerAll(scheme), query))
  {
    hide UrlSplit, LowerAll, SchemeChar, Partition, Lower, NoneOf;
    var rest := path + "?" + query + fragment;
    QueryOf(path, query, fragment);
    NoNetloc(path, query, fragment);
    AfterScheme(scheme, rest, query);
  }

  lemma QueryOf(path: string, query: string, fragment: string)
    requires NoneOf(path, "?#") && NoneOf(query, "#") && (fragment == "" || fragment[0] == '#')
    ensures Partition(Partition(path + "?" + query + fragment, '#').0, '?').2 == query
  {
    hide Partition;
    var body := path + "?" + query;
    if fragment == "" {
      assert body + fragment == body;
      PartitionNone(body, '#');
    } else {
      assert body + fragment == body + ['#'] + fragment[1..];
      PartitionAt(body, '#', fragment[1..]);
    }
    assert body == path + ['?'] + query;
    PartitionAt(path, '?', query);
  }

  lemma AfterScheme(scheme: string, rest: string, query: string)
    requires |scheme| > 0 && 'a' <= Lower(scheme[0]) <= 'z' && forall i :: 0 <= i < |scheme| ==> SchemeChar(scheme[i])
    requires !("//" <= rest) && forall i :: 0 <= i < |rest| ==> rest[i] > ' '
    requires Partition(Partition(rest, '#').0, '?').2 == query
    ensures UrlSplit(scheme + ":" + rest) == Ok(Url(LowerAll(scheme), query))
  {
    hide LowerAll, Partition, DropControls, DropBreaks, SchemeChar;
    var uri := scheme + ":" + rest;
    SchemeText(scheme);
    DropNothing(uri);
    assert uri == scheme + [':'] + rest;
    PartitionAt(scheme, ':', rest);
  }

  lemma NoNetloc(path: string, query: string, fragment: string)
    requires !("//" <= path)
    ensures !("//" <= path + "?" + query + fragment)
  {
    var text := path + "?" + query + fragment;
    assert text[|path|] == '?';
    assert |path| >= 2 ==> text[..2] == path[..2];
  }

  lemma SchemeText(scheme: string)
    requires forall i :: 0 <= i < |scheme| ==> SchemeChar(scheme[i])
    ensures ':' !in scheme && forall i :: 0 <= i < |scheme| ==> scheme[i] > ' '
  {
    forall i | 0 <= i < |scheme| ensures scheme[i] != ':' && scheme[i] > ' ' {
      assert SchemeChar(scheme[i]);
    }
  }

  /** Why hash fields are not accepted: there is none, one cannot be read, or two disagree. */
  lemma CommonErrors(raw: seq<string>)
    ensures CommonBtih(raw) == Err(MissingBtih) <==> raw == []
    ensures CommonBtih(raw) == Err(InvalidBtih) <==> exists i :: 0 <= i < |raw| && Denoted(raw[i]).None?
    ensures CommonBtih(raw) == Err(ConflictingBtih) <==>
              && (forall i :: 0 <= i < |raw| ==> Denoted(raw[i]).Some?)
              && exists i :: 0 <= i < |raw| && Denoted(raw[i]) != Denoted(raw[0])
  {
    hide Denoted, CommonBtih;
    CommonIff(raw);
    UnreadableIff(raw);
  }

  lemma {:induction false} UnreadableIff(raw: seq<string>)
    ensures CommonBtih(raw) == Err(MissingBtih) <==> raw == []
    ensures CommonBtih(raw) == Err(InvalidBtih) <==> exists i :: 0 <= i < |raw| && Denoted(raw[i]).None?
    ensures CommonBtih(raw).Err? ==> CommonBtih(raw).error in {MissingBtih, InvalidBtih, ConflictingBtih}
  {
    hide Denoted, NormalizeBtih;
    if |raw| > 0 {
      Readable(raw[0]);
      Unreadable(raw[0]);
      if |raw| > 1 {
        UnreadableIff(raw[1..]);
        if i :| 0 <= i < |raw[1..]| && Denoted(raw[1..][i]).None? {
          assert Denoted(raw[i + 1]).None?;
        }
        if i :| 0 <= i < |raw| && Denoted(raw[i]).None? {
          assert i > 0 ==> Denoted(raw[1..][i - 1]).None?;
        }
      }
    }
  }

  lemma Unreadable(value: string)
    ensures NormalizeBtih(value).Err? ==> NormalizeBtih(value) == Err(InvalidBtih)
  {
  }

  lemma {:induction false} BreakDropped(a: string, c: char, b: string)
    requires c in "\t\r\n"
    ensures DropBreaks(a + [c] + b) == DropBreaks(a + b)
    ensures DropBreaks(DropControls(a + [c] + b)) == DropBreaks(DropControls(a + b))
  {
    if |a| == 0 {
      assert (a + [c] + b)[1..] == b && a + b == b;
    } else {
      BreakDropped(a[1..], c, b);
      assert (a + [c] + b)[1..] == a[1..] + [c] + b && (a + b)[1..] == a[1..] + b;
    }
  }

  /** Line breaks and tabs anywhere in a link, and spaces and controls before it, make no difference. */
  lemma BlanksAreIgnored(a: string, c: char, b: string)
    ensures c in "\t\r\n" ==> ParseMagnet(a + [c] + b) == ParseMagnet(a + b)
    ensures c <= ' ' ==> ParseMagnet([c] + b) == ParseMagnet(b)
  {
    hide DropBreaks, Partition, LowerAll, ParseQuery, CommonBtih, Parameters, RawBtihs;
    if c in "\t\r\n" {
      BreakDropped(a, c, b);
    }
    assert ([c] + b)[1..] == b;
  }

  /** A field without an equals sign is a name with no value. */
  lemma BareField(key: string)
    requires key != "" && '=' !in key
    ensures ParseFields([key]) == [(Text.FormDecode(key), "")]
  {
    PartitionNone(key, '=');
    assert [key][1..] == [];
  }
}
