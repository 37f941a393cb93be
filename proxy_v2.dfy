/** The proxy option of bookmark_converter_v2.py: the `-p` argument is given a `socks5://`
    scheme when it has none and split on spaces into the proxy address and optional
    credentials; `process_url` then turns every `socks` proxy into a `socks5h://` one (the
    variant that resolves host names through the proxy) for both the `http` and the
    `https` entry of the mapping it hands to `requests`. */
module ProxyV2 {
  import opened Strings

  /** `f"socks5://{proxy}"` when the argument is non-empty and holds no `://`. */
  function WithDefaultScheme(arg: string): (r: string)
    ensures arg != [] && !Contains(arg, "://") ==> r == "socks5://" + arg
    ensures arg == [] || Contains(arg, "://") ==> r == arg
  {
    if arg != [] && !Contains(arg, "://") then "socks5://" + arg else arg
  }

  /** Once the default is applied the proxy names a scheme unless it is empty, it still
      ends with the argument, and applying the default again changes nothing. */
  lemma WithDefaultSchemeSpec(arg: string)
    ensures var r := WithDefaultScheme(arg);
      (arg != [] ==> Contains(r, "://")) &&
      |arg| <= |r| && r[|r| - |arg|..] == arg &&
      WithDefaultScheme(r) == r
  {
    var r := WithDefaultScheme(arg);
    if arg != [] && !Contains(arg, "://") {
      assert r[6..][..3] == "://";
      assert StartsWith(r[6..], "://");
    }
  }

  /** `s.split(sep)` for a one-character separator: the pieces between consecutive
      separators, empty pieces included. */
  function SplitOn(s: string, sep: char): (r: seq<string>)
    ensures r != []
    ensures forall k :: 0 <= k < |r| ==> sep !in r[k]
    decreases |s|
  {
    var i := IndexOf(s, sep);
    if i == |s| then [s] else [s[..i]] + SplitOn(s[i + 1..], sep)
  }

  /** `sep.join(parts)`. */
  function JoinOn(parts: seq<string>, sep: char): string
    requires parts != []
  {
    if |parts| == 1 then parts[0] else parts[0] + [sep] + JoinOn(parts[1..], sep)
  }

  /** Splitting loses nothing: joining the pieces gives the text back. */
  lemma {:induction false} SplitJoin(s: string, sep: char)
    ensures JoinOn(SplitOn(s, sep), sep) == s
    decreases |s|
  {
    var i := IndexOf(s, sep);
    if i < |s| {
      SplitJoin(s[i + 1..], sep);
      assert s[..i] + [sep] + s[i + 1..] == s;
    }
  }

  /** Joining pieces free of the separator and splitting again gives the pieces back. */
  lemma {:induction false} JoinSplit(parts: seq<string>, sep: char)
    requires parts != []
    requires forall k :: 0 <= k < |parts| ==> sep !in parts[k]
    ensures SplitOn(JoinOn(parts, sep), sep) == parts
  {
    var s := JoinOn(parts, sep);
    if |parts| == 1 {
      assert IndexOf(s, sep) == |s|;
    } else {
      JoinSplit(parts[1..], sep);
      var rest := JoinOn(parts[1..], sep);
      assert s == parts[0] + [sep] + rest;
      assert s[|parts[0]|] == sep;
      assert IndexOf(s, sep) == |parts[0]| by {
        assert forall k :: 0 <= k < |parts[0]| ==> s[k] == parts[0][k];
      }
      assert s[..|parts[0]|] == parts[0];
      assert s[|parts[0]| + 1..] == rest;
      assert [parts[0]] + parts[1..] == parts;
    }
  }

  /** The proxy address and the credentials `__main__` passes on. */
  datatype Settings = Settings(address: string, username: Option<string>, password: Option<string>)

  /** Lines 385-403 of `__main__`: the default scheme, then `split(" ")`, with the second
      and third pieces taken as user name and password only when there are at least
      three pieces. */
  function ParseProxy(arg: string): Settings {
    var parts := SplitOn(WithDefaultScheme(arg), ' ');
    if |parts| >= 3 then Settings(parts[0], Some(parts[1]), Some(parts[2]))
    else Settings(parts[0], None, None)
  }

  /** The address is the text up to the first space of the (completed) argument, and
      credentials are set exactly when the argument holds at least two spaces. */
  lemma ParseProxySpec(arg: string)
    ensures var s := ParseProxy(arg);
      var parts := SplitOn(WithDefaultScheme(arg), ' ');
      ' ' !in s.address &&
      StartsWith(WithDefaultScheme(arg), s.address) &&
      (s.username.Some? <==> |parts| >= 3) &&
      (s.username.Some? <==> s.password.Some?) &&
      (s.username.Some? ==> JoinOn([s.address, s.username.value, s.password.value] + parts[3..], ' ') == WithDefaultScheme(arg))
    ensures arg != [] && !Contains(arg, "://") ==> StartsWith(ParseProxy(arg).address, "socks5://")
  {
    var full := WithDefaultScheme(arg);
    FirstPieceIsPrefix(full, ' ');
    var parts := SplitOn(full, ' ');
    if |parts| >= 3 {
      SplitJoin(full, ' ');
      assert [parts[0], parts[1], parts[2]] + parts[3..] == parts;
    }
    if arg != [] && !Contains(arg, "://") {
      SchemeBeforeFirstSpace(arg);
    }
  }

  /** The first piece of a split is the text up to the first separator. */
  lemma FirstPieceIsPrefix(s: string, sep: char)
    ensures SplitOn(s, sep)[0] == s[..IndexOf(s, sep)]
    ensures StartsWith(s, SplitOn(s, sep)[0])
  {
  }

  /** The `socks5://` put in front of an argument lies before its first space. */
  lemma SchemeBeforeFirstSpace(arg: string)
    ensures StartsWith(SplitOn("socks5://" + arg, ' ')[0], "socks5://")
  {
    var full := "socks5://" + arg;
    FirstPieceIsPrefix(full, ' ');
    var i := IndexOf(full, ' ');
    assert full[..9] == "socks5://";
    assert i >= 9 by {
      forall k | 0 <= k < 9
        ensures full[k] != ' '
      {
        assert full[k] == "socks5://"[k];
      }
    }
    assert full[..i][..9] == "socks5://";
  }

  /** The value of both proxy entries `process_url` builds, as written: a proxy starting
      with `socks` loses its first `len('socks5://')`, nine, characters. */
  function ProxyAsWritten(proxy: string): string {
    if StartsWith(proxy, "socks") then "socks5h://" + (if |proxy| >= 9 then proxy[9..] else "")
    else proxy
  }

  /** The intended value: a `socks` proxy keeps everything after its own `://`. */
  function ProxyFor(proxy: string): string {
    if StartsWith(proxy, "socks") then
      "socks5h://" + (if Contains(proxy, "://") then proxy[Find(proxy, "://") + 3..] else proxy)
    else proxy
  }

  /** The `proxies` mapping handed to `requests`. */
  function Proxies(proxy: string): (r: map<string, string>)
    ensures r.Keys == {"http", "https"}
    ensures r["http"] == r["https"] == ProxyFor(proxy)
  {
    map["http" := ProxyFor(proxy), "https" := ProxyFor(proxy)]
  }

  /** A bare `host:port` given to `-p`, without credentials, reaches `requests` as
      `socks5h://host:port` under both keys, as written and as intended alike. */
  lemma BareProxyGoesThroughSocks5h(host: string)
    requires host != [] && !Contains(host, "://") && ' ' !in host
    ensures ParseProxy(host) == Settings("socks5://" + host, None, None)
    ensures Proxies(ParseProxy(host).address) == map["http" := "socks5h://" + host, "https" := "socks5h://" + host]
    ensures ProxyAsWritten(ParseProxy(host).address) == "socks5h://" + host
  {
    var full := "socks5://" + host;
    assert ' ' !in full by {
      assert forall k :: 9 <= k < |full| ==> full[k] == host[k - 9];
    }
    assert IndexOf(full, ' ') == |full|;
    ProxyAgreesForSocks5(host);
  }

  /** A proxy that does not start with `socks` is passed on unchanged; one that does keeps
      its host part and gets the `socks5h` scheme. */
  lemma ProxyForSpec(proxy: string, scheme: string, host: string)
    requires proxy == scheme + "://" + host && ':' !in scheme
    ensures !StartsWith(proxy, "socks") ==> ProxyFor(proxy) == proxy
    ensures StartsWith(proxy, "socks") ==> ProxyFor(proxy) == "socks5h://" + host
  {
    var i := Find(proxy, "://");
    assert StartsWith(proxy[|scheme|..], "://") by {
      assert proxy[|scheme|..][..3] == "://";
    }
    forall k | 0 <= k < |scheme|
      ensures !StartsWith(proxy[k..], "://")
    {
      assert proxy[k] == scheme[k];
    }
    assert proxy[i + 3..] == host;
  }

  /** For the `socks5://` proxies `__main__` builds itself, the code as written and the
      intended rewrite agree. */
  lemma ProxyAgreesForSocks5(host: string)
    ensures ProxyAsWritten("socks5://" + host) == ProxyFor("socks5://" + host) == "socks5h://" + host
  {
    ProxyForSpec("socks5://" + host, "socks5", host);
    assert ("socks5://" + host)[9..] == host;
    assert ("socks5://" + host)[..5] == "socks";
  }

  /** As written, a proxy with a seven-letter `socks` scheme, such as `socks5h` or
      `socks4a`, keeps the slash before its host: `socks5h://h:1` is passed on as
      `socks5h:///h:1`, where the intended rewrite gives `socks5h://h:1`. */
  lemma ProxyAsWrittenKeepsSlash(scheme: string, host: string)
    requires |scheme| == 7 && StartsWith(scheme, "socks") && ':' !in scheme
    ensures ProxyAsWritten(scheme + "://" + host) == "socks5h:///" + host
    ensures ProxyFor(scheme + "://" + host) == "socks5h://" + host
  {
    var p := scheme + "://" + host;
    assert p[..5] == scheme[..5];
    AsWrittenSevenLetters(scheme, host);
    ProxyForSpec(p, scheme, host);
  }

  /** The cut at position 9 falls on the second slash of such a proxy. */
  lemma AsWrittenSevenLetters(scheme: string, host: string)
    requires |scheme| == 7 && StartsWith(scheme, "socks")
    ensures ProxyAsWritten(scheme + "://" + host) == "socks5h:///" + host
  {
    var p := scheme + "://" + host;
    var tail := "://" + host;
    assert p == scheme + tail;
    assert p[..5] == scheme[..5];
    assert p[9..] == tail[2..];
    assert tail[2..] == "/" + host;
    SlashAfterScheme(host);
  }

  lemma SlashAfterScheme(host: string)
    ensures "socks5h://" + ("/" + host) == "socks5h:///" + host
  {
  }

  /** As written, a `socks://` proxy loses the first character of its host:
      `socks://h:1` is passed on as `socks5h://:1`. */
  lemma ProxyAsWrittenCutsSocks(host: string)
    requires host != []
    ensures ProxyAsWritten("socks://" + host) == "socks5h://" + host[1..]
    ensures ProxyFor("socks://" + host) == "socks5h://" + host
  {
    var p := "socks://" + host;
    ProxyForSpec(p, "socks", host);
    assert p[..5] == "socks";
    assert p[9..] == host[1..];
  }
}
