/** The text helpers of the Docker-compatible API in `src/daemon/api.rs`:
    percent-decoding of filters, port and bind specifications, query
    parameters, durations and the path normalisation done before routing.
    The HTTP handling around them is not part of this model. */
module DaemonApi {
  import opened Common
  import CC = ContainerConfigs

  // ----- urlencoding_decode -----

  predicate IsHexDigit(c: char)
  {
    '0' <= c <= '9' || 'a' <= c <= 'f' || 'A' <= c <= 'F'
  }

  function HexValue(c: char): (v: nat)
    requires IsHexDigit(c)
    ensures v < 16
  {
    if '0' <= c <= '9' then c as int - '0' as int
    else if 'a' <= c <= 'f' then c as int - 'a' as int + 10
    else c as int - 'A' as int + 10
  }

  /** `u8::from_str_radix` of a two-character text in base 16: two hex
      digits, or a '+' sign followed by one. */
  function HexPair(a: char, b: char): (r: Option<nat>)
    ensures r.Some? ==> r.value < 256
    ensures IsHexDigit(a) && IsHexDigit(b) ==> r == Some(HexValue(a) * 16 + HexValue(b))
    ensures !IsHexDigit(b) ==> r.None?
  {
    if a == '+' && IsHexDigit(b) then Some(HexValue(b))
    else if IsHexDigit(a) && IsHexDigit(b) then Some(HexValue(a) * 16 + HexValue(b))
    else None
  }

  /** Prefixes a decoded text to the decoding of the rest, if it succeeded. */
  function Then(prefix: string, rest: Option<string>): (r: Option<string>)
    ensures r.Some? <==> rest.Some?
  {
    if rest.Some? then Some(prefix + rest.value) else None
  }

  /** What `urlencoding_decode` computes: `%XX` becomes the character with
      code XX, '+' becomes a space, anything else is copied; a '%' without
      two hex digits after it is an error. */
  function Decoded(s: string): Option<string>
    decreases |s|
  {
    if s == [] then Some([])
    else if s[0] == '%' then
      if |s| < 3 then None
      else match HexPair(s[1], s[2])
        case None => None
        case Some(b) => Then([b as char], Decoded(s[3..]))
    else if s[0] == '+' then Then([' '], Decoded(s[1..]))
    else Then([s[0]], Decoded(s[1..]))
  }

  lemma ThenAssoc(a: string, b: string, rest: Option<string>)
    ensures Then(a + b, rest) == Then(a, Then(b, rest))
  {
    if rest.Some? {
      ConcatAssoc(a, b, rest.value);
    }
  }

  lemma ThenEmpty(rest: Option<string>)
    ensures Then("", rest) == rest
  {
    if rest.Some? {
      assert "" + rest.value == rest.value;
    }
  }

  /** `urlencoding_decode`, character by character. */
  method UrlDecode(input: string) returns (r: Option<string>)
    ensures r == Decoded(input)
  {
    var result := "";
    var i := 0;
    assert input[0..] == input;
    ThenEmpty(Decoded(input));
    while i < |input|
      invariant 0 <= i <= |input|
      invariant Decoded(input) == Then(result, Decoded(input[i..]))
      decreases |input| - i
    {
      var c := input[i];
      if c == '%' {
        assert input[i..][0] == '%';
        if i + 2 >= |input| {
          return None;
        }
        assert input[i..][1] == input[i + 1] && input[i..][2] == input[i + 2];
        var b := HexPair(input[i + 1], input[i + 2]);
        if b.None? {
          return None;
        }
        assert input[i..][3..] == input[i + 3..];
        ThenAssoc(result, [b.value as char], Decoded(input[i + 3..]));
        result := result + [b.value as char];
        i := i + 3;
      } else {
        assert input[i..][1..] == input[i + 1..];
        var d := if c == '+' then ' ' else c;
        ThenAssoc(result, [d], Decoded(input[i + 1..]));
        result := result + [d];
        i := i + 1;
      }
    }
    assert input[i..] == [] && result + [] == result;
    r := Some(result);
  }

  const HexDigits: string := "0123456789ABCDEF"

  /** Percent-encodes every character (each must fit in one byte). */
  function Encode(s: string): string
    requires forall i :: 0 <= i < |s| ==> s[i] as int < 256
  {
    if s == [] then []
    else
      var c := s[0] as int;
      ['%', HexDigits[c / 16], HexDigits[c % 16]] + Encode(s[1..])
  }

  lemma HexDigitsValue(d: nat)
    requires d < 16
    ensures IsHexDigit(HexDigits[d]) && HexValue(HexDigits[d]) == d
  {
  }

  /** Decoding undoes percent-encoding. */
  lemma {:induction false} DecodeEncode(s: string)
    requires forall i :: 0 <= i < |s| ==> s[i] as int < 256
    ensures Decoded(Encode(s)) == Some(s)
    decreases |s|
  {
    if s != [] {
      var c := s[0] as int;
      HexDigitsValue(c / 16);
      HexDigitsValue(c % 16);
      var e := Encode(s);
      assert e[3..] == Encode(s[1..]);
      DecodeEncode(s[1..]);
      assert (c / 16 * 16 + c % 16) as char == s[0];
      assert s == [s[0]] + s[1..];
    }
  }

  /** Text without '%' or '+' decodes to itself. */
  lemma {:induction false} DecodePlain(s: string)
    requires '%' !in s && '+' !in s
    ensures Decoded(s) == Some(s)
    decreases |s|
  {
    if s != [] {
      DecodePlain(s[1..]);
      assert s == [s[0]] + s[1..];
    }
  }

  /** A '%' followed by fewer than two characters is an error. */
  lemma DecodeTruncated(s: string)
    requires |s| > 0 && '%' !in s[..|s| - 1] && '+' !in s && s[|s| - 1] == '%'
    ensures Decoded(s).None?
    decreases |s|
  {
    if |s| > 1 {
      assert s[1..][..|s[1..]| - 1] == s[1..|s| - 1];
      assert s[0] == s[..|s| - 1][0];
      DecodeTruncated(s[1..]);
    }
  }

  // ----- parse_port_spec -----

  /** `parse_port_spec`: the port before the first '/' as a `u16`, 0 when it
      does not parse; the protocol after it is UDP only for exactly "udp". */
  function ParsePortSpec(spec: string): (r: (nat, CC.Protocol))
    ensures r.0 < 0x1_0000
    ensures ParseUint(Split(spec, '/')[0], 0x1_0000).None? ==> r.0 == 0
    ensures r.1 == CC.Udp <==> |Split(spec, '/')| >= 2 && Split(spec, '/')[1] == "udp"
  {
    var parts := Split(spec, '/');
    var port := match ParseUint(parts[0], 0x1_0000) case Some(p) => p case None => 0;
    var protocol := if |parts| >= 2 && parts[1] == "udp" then CC.Udp else CC.Tcp;
    (port, protocol)
  }

  /** The `port/protocol` text Docker uses for an exposed port. */
  function PortSpec(port: nat, protocol: CC.Protocol): string
  {
    NatToString(port) + "/" + (if protocol == CC.Udp then "udp" else "tcp")
  }

  /** Parsing a port specification gives back its port and protocol. */
  lemma ParsePortSpecRoundTrip(port: nat, protocol: CC.Protocol)
    requires port < 0x1_0000
    ensures ParsePortSpec(PortSpec(port, protocol)) == (port, protocol)
  {
    var p := NatToString(port);
    var proto := if protocol == CC.Udp then "udp" else "tcp";
    assert PortSpec(port, protocol) == Join([p, proto], '/');
    SplitJoin([p, proto], '/');
    ParseNatToString(port, 0x1_0000);
  }

  // ----- parse_query_param -----

  /** The query of a request path: the text between its first '?' and the
      next one, if there is a '?'. */
  function QueryOf(path: string): (q: Option<string>)
    ensures q.Some? <==> '?' in path
  {
    var parts := Split(path, '?');
    if |parts| >= 2 then Some(parts[1])
    else
      assert !('?' in path) by {
        if '?' in path {
          SplitHasSep(path, '?');
        }
      }
      None
  }

  /** A text with the separator splits into at least two pieces. */
  lemma SplitHasSep(s: string, c: char)
    requires c in s
    ensures |Split(s, c)| >= 2
  {
  }

  /** A query pair that has a '=' and gives a value to `key`. */
  predicate GivesKey(pair: string, key: string)
  {
    SplitOnce(pair, '=').1.Some? && SplitOnce(pair, '=').0 == key
  }

  /** The value given to `key` by the first pair that has a '=' and that
      key; later pairs are not consulted, even when that value does not
      parse. */
  function FirstValue(pairs: seq<string>, key: string): (r: Option<string>)
    ensures (forall i :: 0 <= i < |pairs| ==> !GivesKey(pairs[i], key)) ==> r.None?
    ensures forall i :: 0 <= i < |pairs| && GivesKey(pairs[i], key) && (forall j :: 0 <= j < i ==> !GivesKey(pairs[j], key)) ==>
      r == SplitOnce(pairs[i], '=').1
  {
    if pairs == [] then None
    else if GivesKey(pairs[0], key) then SplitOnce(pairs[0], '=').1
    else
      var r := FirstValue(pairs[1..], key);
      assert forall i :: 1 <= i < |pairs| ==> pairs[i] == pairs[1..][i - 1];
      r
  }

  /** What `parse_query_param` computes. */
  function QueryParam(path: string, key: string): Option<nat>
  {
    match QueryOf(path)
    case None => None
    case Some(q) =>
      match FirstValue(Split(q, '&'), key)
      case None => None
      case Some(v) => ParseUint(v, 0x1_0000_0000)
  }

  /** `parse_query_param`: scans the pairs of the query in order. */
  method ParseQueryParam(path: string, key: string) returns (r: Option<nat>)
    ensures r == QueryParam(path, key)
    ensures r.Some? ==> r.value < 0x1_0000_0000
  {
    var query := QueryOf(path);
    if query.None? {
      return None;
    }
    var pairs := Split(query.value, '&');
    var i := 0;
    while i < |pairs|
      invariant 0 <= i <= |pairs|
      invariant FirstValue(pairs, key) == FirstValue(pairs[i..], key)
    {
      assert pairs[i..][1..] == pairs[i + 1..];
      var kv := SplitOnce(pairs[i], '=');
      if GivesKey(pairs[i], key) {
        return ParseUint(kv.1.value, 0x1_0000_0000);
      }
      i := i + 1;
    }
    assert pairs[i..] == [];
    r := None;
  }

  /** A single `key=n` query yields n. */
  lemma QueryParamSingle(path: string, key: string, n: nat)
    requires '?' !in path && '?' !in key && '&' !in key && '=' !in key && n < 0x1_0000_0000
    ensures QueryParam(path + "?" + key + "=" + NatToString(n), key) == Some(n)
  {
    var v := NatToString(n);
    var q := key + "=" + v;
    assert '?' !in v && '&' !in v by {
      assert forall i :: 0 <= i < |v| ==> IsDigit(v[i]);
    }
    assert '?' !in q;
    assert path + "?" + key + "=" + v == Join([path, q], '?');
    SplitJoin([path, q], '?');
    assert '&' !in q;
    SplitWithout(q, '&');
    assert q == key + ['='] + v;
    SplitOnceAt(q, '=', key, v);
    ParseNatToString(n, 0x1_0000_0000);
  }

  lemma SplitOnceAt(s: string, c: char, a: string, b: string)
    requires s == a + [c] + b && c !in a
    ensures SplitOnce(s, c) == (a, Some(b))
  {
    assert s[|a|] == c && s[..|a|] == a && s[|a| + 1..] == b;
    FindCharAt(s, c, |a|);
  }

  // ----- format_duration -----

  /** Decimal rendering of an `i64` (a minus sign for negatives). */
  function IntToString(n: int): (s: string)
    ensures |s| > 0 && ' ' !in s
  {
    if n < 0 then "-" + NatToString(-n) else NatToString(n)
  }

  function UnitSeconds(unit: string): nat
  {
    if unit == "minutes" then 60 else if unit == "hours" then 3600 else if unit == "days" then 86400 else 1
  }

  /** The count and unit `format_duration` shows. Rust's division truncates,
      which for the non-negative durations divided here is the floor. */
  function DurationParts(seconds: int): (r: (int, string))
    ensures seconds < 60 ==> r == (seconds, "seconds")
    ensures seconds >= 60 ==> 1 <= r.0 && r.0 * UnitSeconds(r.1) <= seconds < (r.0 + 1) * UnitSeconds(r.1)
    ensures seconds >= 60 && r.1 == "minutes" ==> r.0 < 60
    ensures seconds >= 60 && r.1 == "hours" ==> r.0 < 24
    ensures seconds >= 60 ==> r.1 in {"minutes", "hours", "days"} && (r.1 == "days" <==> seconds >= 86400)
  {
    if seconds < 60 then (seconds, "seconds")
    else if seconds < 3600 then (seconds / 60, "minutes")
    else if seconds < 86400 then (seconds / 3600, "hours")
    else (seconds / 86400, "days")
  }

  /** `format_duration`: `<count> <unit>`. */
  function FormatDuration(seconds: int): (s: string)
    ensures SplitOnce(s, ' ') == (IntToString(DurationParts(seconds).0), Some(DurationParts(seconds).1))
  {
    var (n, unit) := DurationParts(seconds);
    var text := IntToString(n);
    SplitOnceAt(text + " " + unit, ' ', text, unit);
    text + " " + unit
  }

  // ----- request path -----

  /** Removes every leading '/' (`trim_start_matches('/')`). */
  function TrimSlashes(s: string): (r: string)
    ensures |r| > 0 ==> r[0] != '/'
    ensures |r| <= |s| && r == s[|s| - |r|..]
    ensures forall i :: 0 <= i < |s| - |r| ==> s[i] == '/'
  {
    if s != [] && s[0] == '/' then TrimSlashes(s[1..]) else s
  }

  /** The path segments `handle_request` routes on: the query string is cut
      off, leading slashes are dropped and a first segment starting with
      "v1." (the API version) is skipped. */
  function RouteParts(path: string): (parts: seq<string>)
    ensures forall i :: 0 <= i < |parts| ==> '/' !in parts[i] && '?' !in parts[i]
  {
    var clean := Split(path, '?')[0];
    var all := Split(TrimSlashes(clean), '/');
    assert forall i :: 0 <= i < |all| ==> '?' !in all[i] by {
      NotInJoin(all, '/', '?');
    }
    SkipVersion(all)
  }

  /** Drops a first segment that names an API version. */
  function SkipVersion(parts: seq<string>): (r: seq<string>)
    ensures r == parts || (|parts| > 0 && IsPrefix("v1.", parts[0]) && r == parts[1..])
  {
    if |parts| > 0 && IsPrefix("v1.", parts[0]) then parts[1..] else parts
  }

  lemma TrimOneSlash(t: string)
    requires |t| > 0 && t[0] != '/'
    ensures TrimSlashes("/" + t) == t
  {
    assert ("/" + t)[1..] == t;
  }

  /** The segments of a path without a query. */
  lemma RoutePartsNoQuery(path: string)
    requires '?' !in path
    ensures RouteParts(path) == SkipVersion(Split(TrimSlashes(path), '/'))
  {
    SplitWithout(path, '?');
  }

  /** A text that starts with a segment splits into that segment and the rest. */
  lemma SplitFirst(head: string, rest: string, c: char)
    requires c !in head
    ensures Split(head + [c] + rest, c) == [head] + Split(rest, c)
  {
    var s := head + [c] + rest;
    assert s[..|head|] == head && s[|head| + 1..] == rest;
    FindCharAt(s, c, |head|);
  }

  /** The query string plays no part in routing. */
  lemma RoutePartsIgnoreQuery(path: string, query: string)
    requires '?' !in path
    ensures RouteParts(path + "?" + query) == RouteParts(path)
  {
    var p := path + "?" + query;
    var s := Split(p, '?');
    assert p == path + ['?'] + query;
    FindCharAt(p, '?', |path|);
    assert p[..|path|] == path;
    assert s[0] == path;
    SplitWithout(path, '?');
  }

  /** A first segment naming an API version ("v1.43", say) is skipped:
      what follows it is routed on, segment by segment. */
  lemma SkipVersionSegment(head: string, rest: string)
    requires IsPrefix("v1.", head) && '/' !in head && '?' !in head && '?' !in rest
    ensures RouteParts("/" + (head + ['/'] + rest)) == Split(rest, '/')
  {
    var tail := head + ['/'] + rest;
    assert '?' !in tail;
    RoutePartsNoQuery("/" + tail);
    TrimOneSlash(tail);
    SplitFirst(head, rest, '/');
  }

  // ----- binds -----

  /** A bind `host:container[:mode]` as `create_container` reads it: fewer
      than two parts is ignored; the mount is read-only exactly when the
      third part is "ro". */
  function ParseBind(bind: string): (r: Option<CC.VolumeMount>)
    ensures r.Some? <==> ':' in bind
    ensures r.Some? ==> r.value.hostPath == Split(bind, ':')[0] && r.value.containerPath == Split(bind, ':')[1]
    ensures r.Some? ==> (r.value.readOnly <==> |Split(bind, ':')| > 2 && Split(bind, ':')[2] == "ro")
  {
    var parts := Split(bind, ':');
    if |parts| >= 2 then Some(CC.VolumeMount(parts[0], parts[1], |parts| > 2 && parts[2] == "ro"))
    else
      assert ':' !in bind by {
        if ':' in bind {
          SplitHasSep(bind, ':');
        }
      }
      None
  }

  /** The text of a bind. */
  function BindText(m: CC.VolumeMount): string
  {
    m.hostPath + ":" + m.containerPath + (if m.readOnly then ":ro" else "")
  }

  /** Reading a bind back gives the mount it was written from. */
  lemma ParseBindText(m: CC.VolumeMount)
    requires ':' !in m.hostPath && ':' !in m.containerPath
    ensures ParseBind(BindText(m)) == Some(m)
  {
    var parts := if m.readOnly then [m.hostPath, m.containerPath, "ro"] else [m.hostPath, m.containerPath];
    if m.readOnly {
      assert Join(parts[1..][1..], ':') == "ro";
      assert Join(parts[1..], ':') == m.containerPath + ":ro";
    } else {
      assert Join(parts[1..], ':') == m.containerPath;
    }
    assert BindText(m) == Join(parts, ':');
    SplitJoin(parts, ':');
  }

  /** The volumes of the binds that parse, in order, one per such bind. */
  function BindsOf(binds: seq<string>): (r: seq<CC.VolumeMount>)
    ensures |r| <= |binds|
    ensures forall v :: v in r <==> exists b :: b in binds && ParseBind(b) == Some(v)
  {
    if binds == [] then []
    else
      var init := binds[..|binds| - 1];
      var last := binds[|binds| - 1];
      assert binds == init + [last];
      BindsOf(init) + (if ParseBind(last).Some? then [ParseBind(last).value] else [])
  }

  /** The bind loop of `create_container`: each bind that parses becomes a
      volume, in order. */
  method CollectBinds(binds: seq<string>) returns (volumes: seq<CC.VolumeMount>)
    ensures volumes == BindsOf(binds)
  {
    volumes := [];
    var i := 0;
    while i < |binds|
      invariant 0 <= i <= |binds|
      invariant volumes == BindsOf(binds[..i])
    {
      assert binds[..i + 1][..i] == binds[..i];
      var m := ParseBind(binds[i]);
      if m.Some? {
        volumes := volumes + [m.value];
      }
      i := i + 1;
    }
    assert binds[..i] == binds;
  }

  /** Binds that all parse give one volume each, in their order. */
  lemma {:induction false} BindsOfAll(binds: seq<string>)
    requires forall k :: 0 <= k < |binds| ==> ParseBind(binds[k]).Some?
    ensures |BindsOf(binds)| == |binds|
    ensures forall k :: 0 <= k < |binds| ==> BindsOf(binds)[k] == ParseBind(binds[k]).value
  {
    if binds != [] {
      var init := binds[..|binds| - 1];
      var last := binds[|binds| - 1];
      var m := ParseBind(last);
      assert binds == init + [last];
      assert m.Some?;
      assert forall k :: 0 <= k < |init| ==> ParseBind(init[k]).Some? by {
        forall k | 0 <= k < |init| ensures ParseBind(init[k]).Some? {
          assert init[k] == binds[k];
        }
      }
      BindsOfAll(init);
      var r := BindsOf(binds);
      assert r == BindsOf(init) + [m.value];
      forall k | 0 <= k < |binds| ensures r[k] == ParseBind(binds[k]).value {
        if k < |init| {
          assert init[k] == binds[k];
        }
      }
    }
  }
}
