/** What one activity contributes to the activity surfaces, in terms of its fields
    (dashboard/public/data.jsx, `buildActivitySurfaces`). */
module ActivityLaws {
  import opened Prelude
  import opened Activity

  /** The ids agree once every hyphen is an underscore. */
  ghost predicate SameId(a: string, b: string) {
    && |a| == |b|
    && forall i :: 0 <= i < |a| ==> a[i] == b[i] || (a[i] in ['-', '_'] && b[i] in ['-', '_'])
  }

  /** `s` is the last strategy that carries the id, or nothing when none does. */
  ghost predicate LastWithId(strategies: seq<Strategy>, id: string, s: Option<Strategy>) {
    if s.None? then forall i :: 0 <= i < |strategies| ==> !SameId(strategies[i].id, id)
    else exists i :: 0 <= i < |strategies| && strategies[i] == s.value && SameId(strategies[i].id, id)
           && forall j :: i < j < |strategies| ==> !SameId(strategies[j].id, id)
  }

  /** A name the activity itself supplies: not blank, and not the word for an unknown one. */
  ghost predicate Names(value: string, text: Text) {
    |value| > 0 && text.norm(value) !in ["", "unknown"]
  }

  /** `shown` is the first of the two names the activity supplies, else what the strategy says. */
  ghost predicate FirstName(shown: string, own: string, other: string, fallback: string, text: Text) {
    && (Names(own, text) ==> shown == own)
    && (!Names(own, text) && Names(other, text) ==> shown == other)
    && (!Names(own, text) && !Names(other, text) ==> shown == fallback)
  }

  /** A protocol that gets a surface: it has a name, is not the native token under any of its names, and
      does not merely move money. */
  ghost predicate HasSurface(protocol: string, text: Text) {
    && text.norm(protocol) !in ["", "wrapped_native", "wrapped-native", "wrapped native", "native", "native_token",
                                "native-token", "gas"]
    && text.norm(protocol) !in ["across", "gaszip", "gas_zip", "li.fi", "lifi", "odos"]
  }

  /** The word of the first telling part of the detail, else the status. */
  ghost predicate ActionShown(action: string, detail: string, status: string) {
    && (IsSubstring("approve", detail) ==> action == "approve")
    && (!IsSubstring("approve", detail) ==>
          && (IsSubstring("erc4626_deposit", detail) ==> action == "deposit")
          && (!IsSubstring("erc4626_deposit", detail) ==>
                && (IsSubstring("erc4626_redeem", detail) ==> action == "redeem")
                && (!IsSubstring("erc4626_redeem", detail) ==>
                      && (IsSubstring("bridge", detail) ==> action == "bridge")
                      && (!IsSubstring("bridge", detail) ==>
                            && (IsSubstring("swap", detail) ==> action == "swap")
                            && (!IsSubstring("swap", detail) ==>
                                  action == if |status| > 0 then status else "activity")))))
  }

  /** What an activity with the strategy `s` contributes, field by field. */
  ghost predicate Contributes(r: Row, a: Activity, s: Option<Strategy>, protocol: string, text: Text) {
    && FirstName(r.chain, a.chain, "", if s.Some? then s.value.chain else "", text)
    && FirstName(protocol, a.protocol, "", if s.Some? then s.value.protocol else "", text)
    && FirstName(r.assetId, a.finalAssetId, a.finalAssetLabel,
                 if s.Some? && |s.value.pair| > 0 then s.value.pair[0] else "", text)
    && r.key == (if |r.chain| > 0 && |protocol| > 0 && HasSurface(protocol, text) then r.chain + ":" + protocol else "")
    && ActionShown(r.action, text.lower(a.detail), a.status)
    && r.status == a.status && r.observedAt == a.observedAt
    && r.usd == Max(0.0, a.amountUsd.GetOr(0.0))
  }

  lemma NormalizedAgree(a: string, b: string)
    ensures NormalizeId(a) == NormalizeId(b) <==> SameId(a, b)
  {
    if SameId(a, b) {
      assert forall i :: 0 <= i < |a| ==> NormalizeId(a)[i] == NormalizeId(b)[i];
    } else if |a| == |b| {
      var i :| 0 <= i < |a| && a[i] != b[i] && !(a[i] in ['-', '_'] && b[i] in ['-', '_']);
      assert NormalizeId(a)[i] != NormalizeId(b)[i];
    } else {
      assert |NormalizeId(a)| != |NormalizeId(b)|;
    }
  }

  lemma {:induction false} LookupIsLast(strategies: seq<Strategy>, id: string)
    ensures LastWithId(strategies, id, Lookup(strategies, id))
  {
    hide SameId, NormalizeId;
    if strategies != [] {
      var n := |strategies| - 1;
      NormalizedAgree(strategies[n].id, id);
      LookupIsLast(strategies[..n], id);
      assert forall i :: 0 <= i < n ==> strategies[..n][i] == strategies[i];
    }
  }

  lemma NamesExactly(own: string, other: string, fallback: string, text: Text)
    ensures FirstName(OrElse(OrElse(Clean(own, text), Clean(other, text)), fallback), own, other, fallback, text)
    ensures FirstName(OrElse(Clean(own, text), fallback), own, "", fallback, text)
  {
  }

  /** Each activity contributes exactly what its own fields say, completed from the last strategy with
      its id. */
  lemma RowContributes(a: Activity, strategies: seq<Strategy>, text: Text)
    ensures exists s, protocol ::
      LastWithId(strategies, a.strategyId, s) && Contributes(RowOf(a, strategies, text), a, s, protocol, text)
  {
    var s := Lookup(strategies, a.strategyId);
    LookupIsLast(strategies, a.strategyId);
    var protocol := OrElse(Clean(a.protocol, text), if s.Some? then s.value.protocol else "");
    SurfaceExactly(protocol, text);
    ActionExactly(a, text);
    NamesExactly(a.chain, "", if s.Some? then s.value.chain else "", text);
    NamesExactly(a.protocol, "", if s.Some? then s.value.protocol else "", text);
    NamesExactly(a.finalAssetId, a.finalAssetLabel,
                 if s.Some? && |s.value.pair| > 0 then s.value.pair[0] else "", text);
    hide Clean, OrElse, FirstName, Lookup, LastWithId, InferAction, ActionShown, HasSurface, Displayable, TransportOnly;
    assert Contributes(RowOf(a, strategies, text), a, s, protocol, text);
  }

  lemma SurfaceExactly(protocol: string, text: Text)
    ensures Displayable(protocol, text) && !TransportOnly(protocol, text) <==> HasSurface(protocol, text)
  {
  }

  lemma ActionExactly(a: Activity, text: Text)
    ensures ActionShown(InferAction(a, text), text.lower(a.detail), a.status)
  {
    hide IsSubstring;
  }

  /** The surfaces of a pass list no protocol that is not displayable or only moves money, and only under
      a key that names a chain and a protocol. */
  lemma SurfacesAreDisplayable(
      m: map<string, Surface>, activities: seq<Activity>, strategies: seq<Strategy>, text: Text, key: string)
    requires KeysGrouped(m, Rows(activities, strategies, text)) && key in m
    ensures exists chain, protocol ::
      |chain| > 0 && |protocol| > 0 && HasSurface(protocol, text) && key == chain + ":" + protocol
  {
    var rows := Rows(activities, strategies, text);
    var r := Where(rows, ByKey, key)[0];
    assert r in Where(rows, ByKey, key) && r in rows && ByKey(r) == key;
    var i :| 0 <= i < |activities| && RowOf(activities[i], strategies, text) == r;
    RowContributes(activities[i], strategies, text);
    hide HasSurface, FirstName, ActionShown, RowOf, LastWithId;
    var s, protocol :|
      LastWithId(strategies, activities[i].strategyId, s) && Contributes(r, activities[i], s, protocol, text);
  }

  /** A surface needs no activity-only strategy exactly when a strategy names its chain and protocol. */
  lemma KnownExactly(strategies: seq<Strategy>, key: string)
    ensures Known(strategies, key) <==>
      exists i :: 0 <= i < |strategies| && |strategies[i].chain| > 0 && |strategies[i].protocol| > 0
                  && key == strategies[i].chain + ":" + strategies[i].protocol
  {
  }
}
