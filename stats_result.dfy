/**
 * `sanitizeStatsResult(result)` (src/yourls.js; `_sanitizeStatsResult` in
 * dist/yourls.js): the YOURLS `stats` action answers with `links` as an
 * object `{ link_1: ..., link_2: ..., ... }`; the client rewrites it, in
 * place, into the array of those links in index order.
 */
module StatsResult {
  import opened JsValues

  /** `'link_' + index` */
  function LinkKey(i: nat): string {
    "link_" + NatStr(i)
  }

  lemma LinkKeyInjective(i: nat, j: nat)
    requires LinkKey(i) == LinkKey(j)
    ensures i == j
  {
    assert LinkKey(i)[5..] == NatStr(i);
    assert LinkKey(j)[5..] == NatStr(j);
    NatStrInjective(i, j);
  }

  /** The property names a value has to read from. */
  function Names(v: Value): set<string> {
    if v.Obj? then v.d.vals.Keys else {}
  }

  /** The link keys read before `index`. */
  ghost function Visited(index: nat): set<string> {
    set i | 1 <= i < index :: LinkKey(i)
  }

  /** Each step of the loop reads a key that is present and was not read before. */
  lemma CollectStep(links: Value, index: nat)
    requires index >= 1 && !IsNullish(Get(links, LinkKey(index)))
    ensures Names(links) - Visited(index + 1) < Names(links) - Visited(index)
  {
    assert Visited(index + 1) == Visited(index) + {LinkKey(index)};
    if LinkKey(index) in Visited(index) {
      var i :| 1 <= i < index && LinkKey(i) == LinkKey(index);
      LinkKeyInjective(i, index);
    }
    assert LinkKey(index) in Names(links);
  }

  /** `links[link_index], links[link_index + 1], ...` up to the first null or undefined. */
  function Collect(links: Value, index: nat): seq<Value>
    requires index >= 1
    decreases Names(links) - Visited(index)
  {
    var link := Get(links, LinkKey(index));
    if IsNullish(link) then []
    else
      CollectStep(links, index);
      [link] + Collect(links, index + 1)
  }

  /** The result as the stats callback receives it. */
  function SanitizeStats(result: Value): Value {
    if !Truthy(result) then result
    else
      var links := Get(result, "links");
      if !Truthy(links) || links.Arr? then result
      else Obj(Put(result.d, "links", Arr(Collect(links, 1))))
  }

  /**
   * The source's loop: push `links['link_' + index]` while it is not null
   * or undefined, then overwrite `result.links` with the array and return
   * the same object. A null result is handed back as it is.
   */
  method SanitizeStatsResult(result: JsObject?) returns (r: JsObject?)
    modifies result
    ensures r == result
    ensures result != null ==> Obj(result.props) == SanitizeStats(Obj(old(result.props)))
  {
    if result == null {
      return result;
    }
    var links := Lookup(result.props, "links");
    if !Truthy(links) || links.Arr? {
      return result;
    }
    var index := 1;
    var collected: seq<Value> := [];
    while !IsNullish(Get(links, LinkKey(index)))
      invariant index >= 1
      invariant collected + Collect(links, index) == Collect(links, 1)
      invariant result.props == old(result.props)
      decreases Names(links) - Visited(index)
    {
      CollectStep(links, index);
      collected := collected + [Get(links, LinkKey(index))];
      index := index + 1;
    }
    assert Collect(links, index) == [];
    assert collected == collected + Collect(links, index);
    assert SanitizeStats(Obj(result.props)) == Obj(Put(result.props, "links", Arr(collected)));
    result.props := Put(result.props, "links", Arr(collected));
    return result;
  }

  /**
   * The array holds `link_1, link_2, ...` in index order, every one of them
   * present, and the first index after them is missing.
   */
  lemma {:induction false} CollectRules(links: Value, index: nat)
    requires index >= 1
    ensures forall j :: 0 <= j < |Collect(links, index)| ==>
      Collect(links, index)[j] == Get(links, LinkKey(index + j)) && !IsNullish(Collect(links, index)[j])
    ensures IsNullish(Get(links, LinkKey(index + |Collect(links, index)|)))
    decreases Names(links) - Visited(index)
  {
    if !IsNullish(Get(links, LinkKey(index))) {
      CollectStep(links, index);
      CollectRules(links, index + 1);
      var c := Collect(links, index);
      assert c == [Get(links, LinkKey(index))] + Collect(links, index + 1);
      forall j | 0 <= j < |c|
        ensures c[j] == Get(links, LinkKey(index + j)) && !IsNullish(c[j])
      {
        if j > 0 {
          assert c[j] == Collect(links, index + 1)[j - 1];
        }
      }
    }
  }

  /** A null result, a missing or falsy `links`, and an array `links` are returned unchanged. */
  lemma UnchangedCases(result: Value)
    requires !Truthy(result) || !Truthy(Get(result, "links")) || Get(result, "links").Arr?
    ensures SanitizeStats(result) == result
  {
  }

  /**
   * Otherwise `links` becomes the collected array, in the same place among
   * the properties, and every other property is untouched.
   */
  lemma OtherFieldsUntouched(result: Value, k: string)
    requires result.Obj? && Wf(result.d)
    requires Truthy(Get(result, "links")) && !Get(result, "links").Arr?
    ensures SanitizeStats(result).Obj?
    ensures SanitizeStats(result).d.keys == result.d.keys
    ensures Lookup(SanitizeStats(result).d, "links") == Arr(Collect(Get(result, "links"), 1))
    ensures k != "links" ==> Lookup(SanitizeStats(result).d, k) == Lookup(result.d, k)
  {
  }

  /** Sanitising twice is sanitising once: the second pass sees an array and returns early. */
  lemma SanitizeStatsIdempotent(result: Value)
    ensures SanitizeStats(SanitizeStats(result)) == SanitizeStats(result)
  {
    var once := SanitizeStats(result);
    if Truthy(result) && Truthy(Get(result, "links")) && !Get(result, "links").Arr? {
      assert Get(once, "links").Arr?;
    }
  }
}
