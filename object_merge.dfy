/**
 * `extend(target, ...sources)` (src/util/extend.js, `extend$1` in
 * dist/yourls.js): copies every own property of every truthy source onto
 * the target, source by source and property by property, and returns the
 * target itself. Falsy sources are skipped; property values are copied as
 * they are, null and undefined included.
 */
module ObjectMerge {
  import opened JsValues

  /** The target after `target[k] = source[k]` for each `k` of `keys` in turn. */
  function Assign(t: Dict, s: Dict, keys: seq<string>): Dict {
    if keys == [] then t
    else
      var k := keys[|keys| - 1];
      Put(Assign(t, s, keys[..|keys| - 1]), k, Lookup(s, k))
  }

  /** The target after copying one source; a falsy source changes nothing. */
  function AssignFrom(t: Dict, source: Value): Dict {
    if Truthy(source) then Assign(t, OwnProps(source), OwnProps(source).keys) else t
  }

  /** The target after copying every source, first to last. */
  function ExtendAll(t: Dict, sources: seq<Value>): Dict {
    if sources == [] then t
    else AssignFrom(ExtendAll(t, sources[..|sources| - 1]), sources[|sources| - 1])
  }

  /**
   * `extend` as the source runs it: two nested loops writing into the very
   * object it was given, which it then returns.
   */
  method Extend(target: JsObject, sources: seq<Value>) returns (r: JsObject)
    modifies target
    ensures r == target
    ensures target.props == ExtendAll(old(target.props), sources)
  {
    var i := 0;
    while i < |sources|
      invariant 0 <= i <= |sources|
      invariant target.props == ExtendAll(old(target.props), sources[..i])
    {
      var source := sources[i];
      assert sources[..i + 1][..i] == sources[..i];
      if Truthy(source) {
        var own := OwnProps(source);
        ghost var before := target.props;
        var j := 0;
        while j < |own.keys|
          invariant 0 <= j <= |own.keys|
          invariant target.props == Assign(before, own, own.keys[..j])
        {
          var property := own.keys[j];
          assert own.keys[..j + 1][..j] == own.keys[..j];
          target.props := Put(target.props, property, Lookup(own, property));
          j := j + 1;
        }
        assert own.keys[..j] == own.keys;
      }
      i := i + 1;
    }
    assert sources[..i] == sources;
    return target;
  }

  /** The value a key ends up with: that of the last truthy source owning it, else the target's. */
  function LastWriter(t: Dict, sources: seq<Value>, k: string): Value {
    if sources == [] then Lookup(t, k)
    else
      var s := sources[|sources| - 1];
      if Truthy(s) && k in OwnProps(s).keys then Lookup(OwnProps(s), k)
      else LastWriter(t, sources[..|sources| - 1], k)
  }

  lemma {:induction false} AssignLookup(t: Dict, s: Dict, keys: seq<string>, k: string)
    ensures Lookup(Assign(t, s, keys), k) == if k in keys then Lookup(s, k) else Lookup(t, k)
    decreases |keys|
  {
    if keys != [] {
      var init := keys[..|keys| - 1];
      AssignLookup(t, s, init, k);
      assert keys == init + [keys[|keys| - 1]];
    }
  }

  /** After `extend`, every key reads as its last writer says: later sources win. */
  lemma {:induction false} ExtendLookup(t: Dict, sources: seq<Value>, k: string)
    ensures Lookup(ExtendAll(t, sources), k) == LastWriter(t, sources, k)
    decreases |sources|
  {
    if sources != [] {
      var init := sources[..|sources| - 1];
      var s := sources[|sources| - 1];
      ExtendLookup(t, init, k);
      if Truthy(s) {
        AssignLookup(ExtendAll(t, init), OwnProps(s), OwnProps(s).keys, k);
      }
    }
  }

  lemma {:induction false} AssignWf(t: Dict, s: Dict, keys: seq<string>)
    requires Wf(t)
    ensures Wf(Assign(t, s, keys))
    ensures forall k :: k in Assign(t, s, keys).keys <==> k in t.keys || k in keys
    ensures t.keys <= Assign(t, s, keys).keys
    decreases |keys|
  {
    if keys != [] {
      var init := keys[..|keys| - 1];
      AssignWf(t, s, init);
      assert keys == init + [keys[|keys| - 1]];
    }
  }

  /**
   * `extend` keeps the target well formed, keeps its existing keys first and
   * in their order, and adds exactly the keys of the truthy sources.
   */
  lemma {:induction false} ExtendKeys(t: Dict, sources: seq<Value>)
    requires Wf(t)
    ensures Wf(ExtendAll(t, sources))
    ensures t.keys <= ExtendAll(t, sources).keys
    ensures forall k :: k in ExtendAll(t, sources).keys <==>
      k in t.keys || exists i :: 0 <= i < |sources| && Truthy(sources[i]) && k in OwnProps(sources[i]).keys
    decreases |sources|
  {
    if sources != [] {
      var init := sources[..|sources| - 1];
      var s := sources[|sources| - 1];
      ExtendKeys(t, init);
      var mid := ExtendAll(t, init);
      if Truthy(s) {
        AssignWf(mid, OwnProps(s), OwnProps(s).keys);
      }
      forall k ensures k in ExtendAll(t, sources).keys <==>
        k in t.keys || exists i :: 0 <= i < |sources| && Truthy(sources[i]) && k in OwnProps(sources[i]).keys
      {
        if k in ExtendAll(t, sources).keys && k !in mid.keys {
          assert Truthy(sources[|sources| - 1]) && k in OwnProps(sources[|sources| - 1]).keys;
        }
        if exists i :: 0 <= i < |sources| && Truthy(sources[i]) && k in OwnProps(sources[i]).keys {
          var i :| 0 <= i < |sources| && Truthy(sources[i]) && k in OwnProps(sources[i]).keys;
          if i < |sources| - 1 {
            assert init[i] == sources[i];
          }
        }
      }
    }
  }

  /** Copying the sources in two batches is copying them all at once. */
  lemma {:induction false} ExtendConcat(t: Dict, a: seq<Value>, b: seq<Value>)
    ensures ExtendAll(t, a + b) == ExtendAll(ExtendAll(t, a), b)
    decreases |b|
  {
    if b == [] {
      assert a + b == a;
    } else {
      assert (a + b)[..|a + b| - 1] == a + b[..|b| - 1];
      ExtendConcat(t, a, b[..|b| - 1]);
    }
  }

  /** A falsy source (null, undefined, false, 0, "") anywhere in the list is ignored. */
  lemma FalsySourceIgnored(t: Dict, a: seq<Value>, v: Value, b: seq<Value>)
    requires !Truthy(v)
    ensures ExtendAll(t, a + [v] + b) == ExtendAll(t, a + b)
  {
    ExtendConcat(t, a + [v], b);
    ExtendConcat(t, a, b);
    assert (a + [v])[..|a|] == a;
  }
}
