/** The invalidation planner's patterns (`invalidate_workspace`, `invalidate_gateway_cache`,
    `clear_microtendencias_cache`) and what they can and cannot match. */
module Invalidation {
  import opened Results
  import opened Text
  import opened Glob
  import opened KeyCodec

  const WorkspaceCategories: seq<string> := [
    "player_features", "dashboard_metrics", "churn_predictions", "player_timeline",
    "aggregated_data", "microtendencias_dashboard", "dashboard_summary"]

  const GatewayCategories: seq<string> := [
    "dashboard_summary", "microtendencias_dashboard", "gateway_performance"]

  /** The four global patterns of clear_microtendencias_cache. */
  const MicrotendenciasPatterns: seq<string> := [
    "microtendencias_dashboard:*", "dashboard_summary:*",
    "microtendencias_trends:*", "microtendencias_gateway_performance:*"]

  /** The literal every tenant-scoped pattern requires of a key. */
  const WorkspaceMarker: string := "workspace_id"

  /** The shape shared by every tenant-scoped pattern: `{category}:*workspace_id*{rest}`. */
  function Scoped(category: string, rest: string): string
  {
    category + ":*workspace_id*" + rest
  }

  /** f"{category}:*workspace_id*{workspace_id}*" */
  function WorkspacePattern(category: string, workspaceId: int): string
  {
    Scoped(category, IntToString(workspaceId) + "*")
  }

  /** f"{category}:*workspace_id*{workspace_id}*gateway_id*{gateway_id}*" */
  function GatewayPattern(category: string, workspaceId: int, gatewayId: int): string
  {
    Scoped(category, IntToString(workspaceId) + "*" + ("gateway_id*" + IntToString(gatewayId) + "*"))
  }

  /** The seven patterns of invalidate_workspace, one per category; each matches only keys that
      contain "workspace_id". */
  function WorkspacePatterns(workspaceId: int): (ps: seq<string>)
    ensures |ps| == |WorkspaceCategories| == 7
    ensures forall i, k :: 0 <= i < |ps| && Match(ps[i], k) ==> Occurs(WorkspaceMarker, k)
  {
    var ps := seq(|WorkspaceCategories|, i requires 0 <= i < |WorkspaceCategories| =>
      WorkspacePattern(WorkspaceCategories[i], workspaceId));
    assert forall i, k | 0 <= i < |ps| && Match(ps[i], k) :: Occurs(WorkspaceMarker, k) by {
      forall i, k | 0 <= i < |ps| && Match(ps[i], k)
        ensures Occurs(WorkspaceMarker, k)
      {
        ScopedPatternNeedsMarker(WorkspaceCategories[i], IntToString(workspaceId) + "*", k);
      }
    }
    ps
  }

  /** The three patterns of invalidate_gateway_cache, one per gateway category; the mode is
      chosen by `gateway_id is not None`, so Some(0) is the gateway-specific mode. Each pattern
      matches only keys that contain "workspace_id". */
  function GatewayPatterns(workspaceId: int, gatewayId: Option<int>): (ps: seq<string>)
    ensures |ps| == |GatewayCategories| == 3
    ensures forall i, k :: 0 <= i < |ps| && Match(ps[i], k) ==> Occurs(WorkspaceMarker, k)
  {
    var rest := match gatewayId
      case Some(g) => IntToString(workspaceId) + "*" + ("gateway_id*" + IntToString(g) + "*")
      case None => IntToString(workspaceId) + "*";
    var ps := match gatewayId
      case Some(g) =>
        seq(|GatewayCategories|, i requires 0 <= i < |GatewayCategories| =>
          GatewayPattern(GatewayCategories[i], workspaceId, g))
      case None =>
        seq(|GatewayCategories|, i requires 0 <= i < |GatewayCategories| =>
          WorkspacePattern(GatewayCategories[i], workspaceId));
    assert forall i, k | 0 <= i < |ps| && Match(ps[i], k) :: Occurs(WorkspaceMarker, k) by {
      forall i, k | 0 <= i < |ps| && Match(ps[i], k)
        ensures Occurs(WorkspaceMarker, k)
      {
        assert ps[i] == Scoped(GatewayCategories[i], rest);
        ScopedPatternNeedsMarker(GatewayCategories[i], rest, k);
      }
    }
    ps
  }

  /** Every string a `category:*workspace_id*...` pattern matches contains "workspace_id". */
  lemma ScopedPatternNeedsMarker(category: string, rest: string, s: string)
    requires Match(Scoped(category, rest), s)
    ensures Occurs(WorkspaceMarker, s)
  {
    assert ":*workspace_id*" == ":*" + WorkspaceMarker + "*";
    assert Scoped(category, rest) == (category + ":*") + WorkspaceMarker + ("*" + rest);
    MatchedLiteralOccurs(category + ":*", WorkspaceMarker, "*" + rest, s);
  }

  /** A derived key contains "workspace_id" only if its prefix does: the 8-hex-digit digest
      after the colon is too short to hold it. */
  lemma DerivedKeyLacksMarker(prefix: string, kwargs: seq<Param>, digest: Digest)
    requires !Occurs(WorkspaceMarker, prefix)
    ensures !Occurs(WorkspaceMarker, CacheKey(prefix, kwargs, digest))
  {
    var key := CacheKey(prefix, kwargs, digest);
    var tail := key[|prefix|..];
    assert key == prefix + tail;
    assert tail[0] == ':' && ':' !in WorkspaceMarker;
    NoOccurrenceAcross(WorkspaceMarker, prefix, tail);
  }

  /** invalidate_workspace never matches a key produced by _generate_cache_key (for a prefix not
      itself containing "workspace_id"): the patterns embed the argument NAME, the keys only a digest. */
  lemma DerivedKeysEscapeWorkspacePatterns(workspaceId: int, prefix: string, kwargs: seq<Param>, digest: Digest)
    requires !Occurs(WorkspaceMarker, prefix)
    ensures !MatchesSome(WorkspacePatterns(workspaceId), CacheKey(prefix, kwargs, digest))
  {
    var key := CacheKey(prefix, kwargs, digest);
    var ps := WorkspacePatterns(workspaceId);
    DerivedKeyLacksMarker(prefix, kwargs, digest);
    if MatchesSome(ps, key) {
      var i := MatchesSomeWitness(ps, key);
    }
  }

  /** Neither mode of invalidate_gateway_cache matches a key produced by _generate_cache_key. */
  lemma DerivedKeysEscapeGatewayPatterns(workspaceId: int, gatewayId: Option<int>, prefix: string,
                                         kwargs: seq<Param>, digest: Digest)
    requires !Occurs(WorkspaceMarker, prefix)
    ensures !MatchesSome(GatewayPatterns(workspaceId, gatewayId), CacheKey(prefix, kwargs, digest))
  {
    var key := CacheKey(prefix, kwargs, digest);
    var ps := GatewayPatterns(workspaceId, gatewayId);
    DerivedKeyLacksMarker(prefix, kwargs, digest);
    if MatchesSome(ps, key) {
      var i := MatchesSomeWitness(ps, key);
    }
  }

  /** The gateway-specific mode is narrower than the workspace-wide mode, category by category. */
  lemma GatewayModeNarrower(workspaceId: int, gatewayId: int, s: string, i: nat)
    requires i < |GatewayCategories|
    requires Match(GatewayPatterns(workspaceId, Some(gatewayId))[i], s)
    ensures Match(GatewayPatterns(workspaceId, None)[i], s)
  {
    ScopedNarrower(GatewayCategories[i], IntToString(workspaceId), "gateway_id*" + IntToString(gatewayId) + "*", s);
  }

  /** Text after a star only narrows a scoped pattern. */
  lemma ScopedNarrower(category: string, id: string, more: string, s: string)
    requires Match(Scoped(category, id + "*" + more), s)
    ensures Match(Scoped(category, id + "*"), s)
  {
    var q := category + ":*workspace_id*" + id;
    assert Scoped(category, id + "*" + more) == q + "*" + more;
    NarrowerAfterStar(q, more, s);
    assert Scoped(category, id + "*") == q + "*";
  }

  lemma IntToStringStarFree(i: int)
    ensures StarFree(IntToString(i))
  {
    var s := IntToString(i);
    if i < 0 {
      assert s == "-" + NatToString(-i);
      assert forall k :: 0 <= k < |s| ==> s[k] == '-' || IsDigit(s[k]);
    } else {
      assert forall k :: 0 <= k < |s| ==> IsDigit(s[k]);
    }
  }

  /** A workspace pattern is a substring test: it matches any key text that mentions
      "workspace_id" and later the id's digits, so the pattern for workspace 1 also matches text
      naming workspace 12 or 21. */
  lemma WorkspacePatternIsSubstringTest(category: string, workspaceId: int, before: string,
                                        middle: string, after: string)
    requires StarFree(category)
    ensures Match(WorkspacePattern(category, workspaceId),
                  category + ":" + before + WorkspaceMarker + middle + IntToString(workspaceId) + after)
  {
    var id := IntToString(workspaceId);
    IntToStringStarFree(workspaceId);
    var p0, s0 := category + ":", category + ":";
    StarFreeMatch(p0, s0);
    var p1, s1 := p0 + "*", s0 + before;
    StarThenAnything(p0, s0, before);
    var p2, s2 := p1 + WorkspaceMarker, s1 + WorkspaceMarker;
    LiteralThenItself(p1, s1, WorkspaceMarker);
    var p3, s3 := p2 + "*", s2 + middle;
    StarThenAnything(p2, s2, middle);
    var p4, s4 := p3 + id, s3 + id;
    LiteralThenItself(p3, s3, id);
    StarThenAnything(p4, s4, after);
    ScopedUnfolds(category, id + "*");
    assert WorkspacePattern(category, workspaceId) == p4 + "*";
  }

  /** The scoped prefix spelled out piece by piece. */
  lemma ScopedUnfolds(category: string, rest: string)
    ensures Scoped(category, rest) == category + ":" + "*" + WorkspaceMarker + "*" + rest
  {
    assert ":*workspace_id*" == ":" + "*" + WorkspaceMarker + "*";
  }

  /** Appending `*` to a pattern lets the text gain any tail. */
  lemma StarThenAnything(p: string, s: string, tail: string)
    requires Match(p, s)
    ensures Match(p + "*", s + tail)
  {
    StarMatchesAll(tail);
    MatchConcat(p, "*", s, tail);
  }

  /** Appending a star-free literal to both pattern and text keeps the match. */
  lemma LiteralThenItself(p: string, s: string, w: string)
    requires Match(p, s) && StarFree(w)
    ensures Match(p + w, s + w)
  {
    StarFreeMatch(w, w);
    MatchConcat(p, w, s, w);
  }

  /** A bare `category:*` pattern, as clear_microtendencias_cache uses, matches every key derived
      for that category, whatever its arguments. */
  lemma CategoryPatternMatchesDerivedKeys(category: string, kwargs: seq<Param>, digest: Digest)
    requires StarFree(category)
    ensures Match(category + ":*", CacheKey(category, kwargs, digest))
  {
    var key := CacheKey(category, kwargs, digest);
    var head := category + ":";
    assert category + ":*" == head + "*";
    StarFreeMatch(head, head);
    StarMatchesAll(key[|head|..]);
    MatchConcat(head, "*", head, key[|head|..]);
    assert key == head + key[|head|..];
  }
}
