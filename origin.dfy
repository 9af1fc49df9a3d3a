/**
 * The origin gate. A list request is admitted on its Origin header (RFC 6454,
 * section 7) or, when that is empty, on the origin of its Referer; a WebSocket
 * upgrade is admitted on its Origin header alone (RFC 6455, sections 4.2.1 and
 * 10.2). Both compare against the configured allow-list by exact string equality.
 */
module Origin {
  import opened Wrappers
  import Config

  /** What url.Parse leaves of a Referer that parses: its scheme and host. */
  datatype Url = Url(scheme: string, host: string)

  /** The origin a Referer names, "scheme://host"; none when it is empty, unparsable, or lacks either part. */
  function RefererOrigin(referer: string, parsed: Option<Url>): (origin: Option<string>)
    ensures origin.Some? <==> referer != "" && parsed.Some? && parsed.value.scheme != "" && parsed.value.host != ""
    ensures origin.Some? ==> parsed.value.scheme + "://" < origin.value
  {
    if referer == "" then None
    else match parsed
      case None => None
      case Some(url) =>
        if url.scheme == "" || url.host == "" then None else Some(url.scheme + "://" + url.host)
  }

  /** The list gate: a non-empty Origin must be allowed; otherwise the Referer's origin must exist and be allowed. */
  predicate ListGate(allowed: seq<string>, origin: string, referer: string, parsed: Option<Url>) {
    if origin != "" then origin in allowed
    else
      var fromReferer := RefererOrigin(referer, parsed);
      fromReferer.Some? && fromReferer.value in allowed
  }

  /** An empty allow-list entry never admits a list request: no request's origin can be the empty string. */
  lemma ListGateIgnoresEmptyEntry(allowed: seq<string>, origin: string, referer: string, parsed: Option<Url>)
    ensures ListGate(allowed + [""], origin, referer, parsed) == ListGate(allowed, origin, referer, parsed)
  {
    var fromReferer := RefererOrigin(referer, parsed);
    if origin == "" && fromReferer.Some? {
      assert fromReferer.value != "";
    }
  }

  /** `createUpgrader`'s allow-map: every configured origin maps to true. */
  method CreateUpgrader(allowed: seq<string>) returns (allowedMap: map<string, bool>)
    ensures forall o :: CheckOrigin(allowedMap, o) <==> o in allowed
  {
    allowedMap := map[];
    for i := 0 to |allowed|
      invariant forall o :: o in allowedMap ==> allowedMap[o]
      invariant forall o :: o in allowedMap <==> o in allowed[..i]
    {
      allowedMap := allowedMap[allowed[i] := true];
    }
    assert allowed[..|allowed|] == allowed;
  }

  /** The upgrader's CheckOrigin: the Origin header (empty when absent) looked up; a missing key reads as false. */
  predicate CheckOrigin(allowedMap: map<string, bool>, origin: string) {
    origin in allowedMap && allowedMap[origin]
  }

  /**
   * A trailing comma in ALLOWED_ORIGINS puts the empty string into the allow-list,
   * and with it every WebSocket upgrade that sends no Origin header.
   */
  lemma {:induction false} TrailingCommaAllowsEmptyOrigin(raw: string)
    ensures "" in Config.AllowedOriginsOf(raw + ",")
  {
    var pieces := Config.Split(raw + ",", ',');
    LastPieceAfterComma(raw);
    assert Config.TrimSpace(pieces[|pieces| - 1]) == "";
    assert Config.AllowedOriginsOf(raw + ",")[|pieces| - 1] == "";
  }

  lemma {:induction false} LastPieceAfterComma(raw: string)
    ensures var pieces := Config.Split(raw + ",", ','); pieces[|pieces| - 1] == ""
    decreases |raw|
  {
    var s := raw + ",";
    if |raw| > 0 {
      assert s[1..] == raw[1..] + ",";
      LastPieceAfterComma(raw[1..]);
    } else {
      assert s[1..] == "";
    }
  }
}
