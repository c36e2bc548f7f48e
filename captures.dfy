/**
 Capture aggregation of the `parse-query` handler.

 For one parsed file, the query cursor yields a stream of matches, each paired
 with an index `ix`. For every capture of a yielded match, the handler slices the
 file's source text at the capture's byte range and updates the entry keyed by
 `capture_names()[ix]` of a hash map with `entry(..).and_modify(push).or_default()`.

 The quirks of that update are kept as they are:
 - the first time a key is met, `or_default` inserts an EMPTY sequence and the
   text of that capture is not stored;
 - every capture of one yielded match is filed under the same key `names[ix]`.

 Positions in `src` are byte offsets: the source text is modelled as one
 character per byte.
 */
module Captures {

  /** Byte range of a captured node. */
  datatype ByteRange = ByteRange(startByte: nat, endByte: nat)

  /** One element yielded by the query cursor: the captures of a match, in
      order, and the index yielded with it. */
  datatype YieldedMatch = YieldedMatch(captures: seq<ByteRange>, ix: nat)

  /** The handler's `HashMap<String, Vec<String>>`. */
  type CaptureMap = map<string, seq<string>>

  /** A (key, snippet) pair: one capture as it is filed. */
  type Filing = (string, string)

  // ---------------------------------------------------------------------------
  // What the handler demands of the cursor's output (slicing and indexing
  // panic otherwise)
  // ---------------------------------------------------------------------------

  /** `src[start..end]` does not panic. */
  predicate RangeFits(r: ByteRange, src: string) {
    r.startByte <= r.endByte <= |src|
  }

  /** Every capture of a match can be sliced, and, as soon as there is one
      capture to file, `names[ix]` can be read. */
  predicate CapturesIndexable(caps: seq<ByteRange>, ix: nat, names: seq<string>, src: string) {
    && (forall j :: 0 <= j < |caps| ==> RangeFits(caps[j], src))
    && (|caps| > 0 ==> ix < |names|)
  }

  predicate Indexable(items: seq<YieldedMatch>, names: seq<string>, src: string) {
    forall k :: 0 <= k < |items| ==> CapturesIndexable(items[k].captures, items[k].ix, names, src)
  }

  // ---------------------------------------------------------------------------
  // The fold, as specification functions
  // ---------------------------------------------------------------------------

  /** The text of a capture: the source sliced at its byte range. */
  function Snippet(src: string, r: ByteRange): (s: string)
    requires RangeFits(r, src)
    ensures |s| == r.endByte - r.startByte
    ensures forall i :: 0 <= i < |s| ==> s[i] == src[r.startByte + i]
    ensures r.startByte == r.endByte ==> s == ""
  {
    src[r.startByte..r.endByte]
  }

  /** One `entry(key).and_modify(|v| v.push(content)).or_default()`. */
  function Entry(m: CaptureMap, key: string, content: string): (r: CaptureMap)
    ensures r.Keys == m.Keys + {key}
    ensures key !in m ==> r[key] == []
    ensures key in m ==> r[key] == m[key] + [content]
    ensures forall k :: k in m && k != key ==> r[k] == m[k]
  {
    if key in m then m[key := m[key] + [content]] else m[key := []]
  }

  /** The inner `fold` over the captures of one yielded match, starting from `m`. */
  function FoldCaptures(m: CaptureMap, caps: seq<ByteRange>, ix: nat, names: seq<string>, src: string): CaptureMap
    requires CapturesIndexable(caps, ix, names, src)
    decreases |caps|
  {
    if caps == [] then m
    else
      var last := caps[|caps| - 1];
      Entry(FoldCaptures(m, caps[..|caps| - 1], ix, names, src), names[ix], Snippet(src, last))
  }

  /** The outer `for` loop over the yielded matches, starting from an empty map. */
  function Aggregate(items: seq<YieldedMatch>, names: seq<string>, src: string): CaptureMap
    requires Indexable(items, names, src)
    decreases |items|
  {
    if items == [] then map[]
    else
      var last := items[|items| - 1];
      FoldCaptures(Aggregate(items[..|items| - 1], names, src), last.captures, last.ix, names, src)
  }

  // ---------------------------------------------------------------------------
  // The handler's loop
  // ---------------------------------------------------------------------------

  /** Builds the capture map of one file the way the handler does: a fresh map,
      updated in place for every capture of every yielded match. */
  method CollectCaptures(items: seq<YieldedMatch>, names: seq<string>, src: string) returns (hashmap: CaptureMap)
    requires Indexable(items, names, src)
    ensures hashmap == Aggregate(items, names, src)
  {
    hashmap := map[];
    for i := 0 to |items|
      invariant hashmap == Aggregate(items[..i], names, src)
    {
      var queryCapture := items[i];
      ghost var before := hashmap;
      for j := 0 to |queryCapture.captures|
        invariant hashmap == FoldCaptures(before, queryCapture.captures[..j], queryCapture.ix, names, src)
      {
        var range := queryCapture.captures[j];
        var content := src[range.startByte..range.endByte];
        var key := names[queryCapture.ix];
        assert queryCapture.captures[..j + 1][..j] == queryCapture.captures[..j];
        if key in hashmap {
          hashmap := hashmap[key := hashmap[key] + [content]];
        } else {
          hashmap := hashmap[key := []];
        }
      }
      assert queryCapture.captures[..|queryCapture.captures|] == queryCapture.captures;
      assert items[..i + 1][..i] == items[..i];
    }
    assert items[..|items|] == items;
  }

  // ---------------------------------------------------------------------------
  // Reference definitions: the stream of filings in traversal order
  // ---------------------------------------------------------------------------

  /** The texts of a match's captures, in order. */
  function Snippets(caps: seq<ByteRange>, src: string): (s: seq<string>)
    requires forall j :: 0 <= j < |caps| ==> RangeFits(caps[j], src)
    ensures |s| == |caps|
    ensures forall j :: 0 <= j < |caps| ==> s[j] == Snippet(src, caps[j])
    decreases |caps|
  {
    if caps == [] then []
    else Snippets(caps[..|caps| - 1], src) + [Snippet(src, caps[|caps| - 1])]
  }

  /** The filings of one yielded match: each capture, in order, under `names[ix]`. */
  function MatchFilings(caps: seq<ByteRange>, ix: nat, names: seq<string>, src: string): (fs: seq<Filing>)
    requires CapturesIndexable(caps, ix, names, src)
    ensures |fs| == |caps|
    ensures forall j :: 0 <= j < |caps| ==> fs[j] == (names[ix], Snippet(src, caps[j]))
    decreases |caps|
  {
    if caps == [] then []
    else MatchFilings(caps[..|caps| - 1], ix, names, src) + [(names[ix], Snippet(src, caps[|caps| - 1]))]
  }

  /** All filings of a file, in traversal order. */
  function Filings(items: seq<YieldedMatch>, names: seq<string>, src: string): seq<Filing>
    requires Indexable(items, names, src)
    decreases |items|
  {
    if items == [] then []
    else
      var last := items[|items| - 1];
      Filings(items[..|items| - 1], names, src) + MatchFilings(last.captures, last.ix, names, src)
  }

  /** The snippets filed under `key`, in traversal order. */
  function Under(fs: seq<Filing>, key: string): seq<string>
    decreases |fs|
  {
    if fs == [] then []
    else
      var last := fs[|fs| - 1];
      Under(fs[..|fs| - 1], key) + (if last.0 == key then [last.1] else [])
  }

  /** The keys that occur among the filings. */
  function Keys(fs: seq<Filing>): set<string>
    decreases |fs|
  {
    if fs == [] then {} else Keys(fs[..|fs| - 1]) + {fs[|fs| - 1].0}
  }

  /** Applying `Entry` to each filing in turn. */
  function FoldFilings(m: CaptureMap, fs: seq<Filing>): CaptureMap
    decreases |fs|
  {
    if fs == [] then m
    else
      var last := fs[|fs| - 1];
      Entry(FoldFilings(m, fs[..|fs| - 1]), last.0, last.1)
  }

  /** Some yielded match with at least one capture has `key` as its name. */
  predicate NamedByAMatch(items: seq<YieldedMatch>, names: seq<string>, key: string) {
    exists k :: 0 <= k < |items| && |items[k].captures| > 0 && items[k].ix < |names| && names[items[k].ix] == key
  }

  // ---------------------------------------------------------------------------
  // Lemmas
  // ---------------------------------------------------------------------------

  /** Some snippet is filed under `key` exactly when `key` occurs among the filings. */
  lemma {:induction false} UnderEmptyIffAbsent(fs: seq<Filing>, key: string)
    ensures Under(fs, key) == [] <==> key !in Keys(fs)
    decreases |fs|
  {
    if fs != [] {
      UnderEmptyIffAbsent(fs[..|fs| - 1], key);
    }
  }

  /** Folding the filings from `m`, seen at one key: the key is present
      afterwards when it was in `m` or is filed; a key already in `m` gets its
      filed snippets appended in order; a new key gets its filed snippets in
      order except the first, which `or_default` drops. */
  lemma {:induction false} FoldFilingsAt(m: CaptureMap, fs: seq<Filing>, key: string)
    ensures key in FoldFilings(m, fs) <==> key in m || key in Keys(fs)
    ensures key in m ==> FoldFilings(m, fs)[key] == m[key] + Under(fs, key)
    ensures key !in m && key in Keys(fs) ==>
              |Under(fs, key)| > 0 && FoldFilings(m, fs)[key] == Under(fs, key)[1..]
    decreases |fs|
  {
    if fs != [] {
      var init, last := fs[..|fs| - 1], fs[|fs| - 1];
      FoldFilingsAt(m, init, key);
      UnderEmptyIffAbsent(init, key);
      if key !in m && key in Keys(init) && key == last.0 {
        assert (Under(init, key) + [last.1])[1..] == Under(init, key)[1..] + [last.1];
      }
    }
  }

  /** Concatenated filings fold one part after the other. */
  lemma {:induction false} FoldFilingsAppend(m: CaptureMap, a: seq<Filing>, b: seq<Filing>)
    ensures FoldFilings(m, a + b) == FoldFilings(FoldFilings(m, a), b)
    decreases |b|
  {
    if b == [] {
      assert a + b == a;
    } else {
      var init := b[..|b| - 1];
      assert (a + b)[..|a + b| - 1] == a + init;
      FoldFilingsAppend(m, a, init);
    }
  }

  /** The inner fold files each capture of the match under `names[ix]`. */
  lemma {:induction false} FoldCapturesFiles(m: CaptureMap, caps: seq<ByteRange>, ix: nat, names: seq<string>, src: string)
    requires CapturesIndexable(caps, ix, names, src)
    ensures FoldCaptures(m, caps, ix, names, src) == FoldFilings(m, MatchFilings(caps, ix, names, src))
    decreases |caps|
  {
    if caps != [] {
      var init := caps[..|caps| - 1];
      FoldCapturesFiles(m, init, ix, names, src);
      var fs := MatchFilings(caps, ix, names, src);
      assert fs[..|fs| - 1] == MatchFilings(init, ix, names, src);
    }
  }

  /** The whole loop is the fold of the file's filings, from an empty map. */
  lemma {:induction false} AggregateFiles(items: seq<YieldedMatch>, names: seq<string>, src: string)
    requires Indexable(items, names, src)
    ensures Aggregate(items, names, src) == FoldFilings(map[], Filings(items, names, src))
    decreases |items|
  {
    if items != [] {
      var init, last := items[..|items| - 1], items[|items| - 1];
      AggregateFiles(init, names, src);
      FoldCapturesFiles(Aggregate(init, names, src), last.captures, last.ix, names, src);
      FoldFilingsAppend(map[], Filings(init, names, src), MatchFilings(last.captures, last.ix, names, src));
    }
  }

  /** One yielded match changes only the entry for `names[ix]`: that key is
      present afterwards, holding the old sequence followed by all the match's
      snippets, or, when it was absent, all of them but the first; every other
      key and its sequence are untouched. */
  lemma {:induction false} FoldCapturesEffect(m: CaptureMap, caps: seq<ByteRange>, ix: nat, names: seq<string>, src: string)
    requires CapturesIndexable(caps, ix, names, src)
    ensures caps == [] ==> FoldCaptures(m, caps, ix, names, src) == m
    ensures forall key :: key != (if ix < |names| then names[ix] else "") ==>
              (key in FoldCaptures(m, caps, ix, names, src) <==> key in m)
    ensures forall key :: key in m && key != (if ix < |names| then names[ix] else "") ==>
              FoldCaptures(m, caps, ix, names, src)[key] == m[key]
    ensures caps != [] && names[ix] in m ==>
              FoldCaptures(m, caps, ix, names, src)[names[ix]] == m[names[ix]] + Snippets(caps, src)
    ensures caps != [] && names[ix] !in m ==>
              FoldCaptures(m, caps, ix, names, src)[names[ix]] == Snippets(caps, src)[1..]
    decreases |caps|
  {
    if caps != [] {
      var init := caps[..|caps| - 1];
      FoldCapturesEffect(m, init, ix, names, src);
      var key := names[ix];
      var s := Snippet(src, caps[|caps| - 1]);
      if init != [] && key !in m {
        assert (Snippets(init, src) + [s])[1..] == Snippets(init, src)[1..] + [s];
      }
    }
  }

  /** The keys of concatenated filings are those of either part. */
  lemma {:induction false} KeysAppend(a: seq<Filing>, b: seq<Filing>)
    ensures Keys(a + b) == Keys(a) + Keys(b)
    decreases |b|
  {
    if b == [] {
      assert a + b == a;
    } else {
      assert (a + b)[..|a + b| - 1] == a + b[..|b| - 1];
      KeysAppend(a, b[..|b| - 1]);
    }
  }

  /** A yielded match files its captures under `names[ix]` and nothing else. */
  lemma {:induction false} MatchFilingKeys(caps: seq<ByteRange>, ix: nat, names: seq<string>, src: string)
    requires CapturesIndexable(caps, ix, names, src)
    ensures Keys(MatchFilings(caps, ix, names, src)) == if caps == [] then {} else {names[ix]}
    decreases |caps|
  {
    if caps != [] {
      var init := caps[..|caps| - 1];
      MatchFilingKeys(init, ix, names, src);
      var fs := MatchFilings(caps, ix, names, src);
      assert fs[..|fs| - 1] == MatchFilings(init, ix, names, src);
    }
  }

  /** A name is given by some yielded match with captures exactly when it is
      given by an earlier one or by the last. */
  lemma NamedByAMatchLast(items: seq<YieldedMatch>, names: seq<string>, key: string)
    requires items != []
    ensures NamedByAMatch(items, names, key) <==>
              || NamedByAMatch(items[..|items| - 1], names, key)
              || (var last := items[|items| - 1];
                  |last.captures| > 0 && last.ix < |names| && names[last.ix] == key)
  {
  }

  /** The key set of the filings is exactly the set of `names[ix]` over yielded
      matches that have at least one capture. */
  lemma {:induction false} FilingKeys(items: seq<YieldedMatch>, names: seq<string>, src: string, key: string)
    requires Indexable(items, names, src)
    ensures key in Keys(Filings(items, names, src)) <==> NamedByAMatch(items, names, key)
    decreases |items|
  {
    if items != [] {
      var init, last := items[..|items| - 1], items[|items| - 1];
      FilingKeys(init, names, src, key);
      KeysAppend(Filings(init, names, src), MatchFilings(last.captures, last.ix, names, src));
      MatchFilingKeys(last.captures, last.ix, names, src);
      NamedByAMatchLast(items, names, key);
    }
  }

  /** What the handler's map holds after the loop: its keys are exactly the
      names of the yielded matches that have captures, and each key's sequence
      is every snippet filed under it, in traversal order, except the first
      (so its length is the number of captures filed under it, minus one). */
  lemma AggregateShape(items: seq<YieldedMatch>, names: seq<string>, src: string)
    requires Indexable(items, names, src)
    ensures forall key :: key in Aggregate(items, names, src) <==> NamedByAMatch(items, names, key)
    ensures forall key :: key in Aggregate(items, names, src) ==>
              |Under(Filings(items, names, src), key)| >= 1 &&
              Aggregate(items, names, src)[key] == Under(Filings(items, names, src), key)[1..]
  {
    var fs := Filings(items, names, src);
    AggregateFiles(items, names, src);
    forall key
      ensures key in Aggregate(items, names, src) <==> NamedByAMatch(items, names, key)
      ensures key in Aggregate(items, names, src) ==>
                |Under(fs, key)| >= 1 && Aggregate(items, names, src)[key] == Under(fs, key)[1..]
    {
      FoldFilingsAt(map[], fs, key);
      FilingKeys(items, names, src, key);
    }
  }

  /** One more yielded match only touches its own key: a key already present
      grows by the match's snippets at the end, so snippets keep traversal
      order; a new key gets all of them but the first; every other key keeps
      its sequence. */
  lemma AggregateAppends(items: seq<YieldedMatch>, next: YieldedMatch, names: seq<string>, src: string)
    requires Indexable(items, names, src)
    requires CapturesIndexable(next.captures, next.ix, names, src)
    requires |next.captures| > 0
    ensures Indexable(items + [next], names, src)
    ensures names[next.ix] in Aggregate(items, names, src) ==>
              Aggregate(items + [next], names, src)[names[next.ix]] ==
              Aggregate(items, names, src)[names[next.ix]] + Snippets(next.captures, src)
    ensures names[next.ix] !in Aggregate(items, names, src) ==>
              names[next.ix] in Aggregate(items + [next], names, src) &&
              Aggregate(items + [next], names, src)[names[next.ix]] == Snippets(next.captures, src)[1..]
    ensures forall key :: key != names[next.ix] ==>
              (key in Aggregate(items + [next], names, src) <==> key in Aggregate(items, names, src))
    ensures forall key :: key in Aggregate(items, names, src) && key != names[next.ix] ==>
              Aggregate(items + [next], names, src)[key] == Aggregate(items, names, src)[key]
  {
    var all := items + [next];
    assert all[..|all| - 1] == items;
    assert all[|all| - 1] == next;
    FoldCapturesEffect(Aggregate(items, names, src), next.captures, next.ix, names, src);
  }

  /** A single capture name `x` matching "a" and then "b" gives `x -> ["b"]`:
      the first snippet is dropped by `or_default`. The first clause feeds both
      captures in one yielded element, the second in two. */
  lemma FirstSnippetDropped()
    ensures Aggregate([YieldedMatch([ByteRange(0, 1), ByteRange(1, 2)], 0)], ["x"], "ab") == map["x" := ["b"]]
    ensures Aggregate([YieldedMatch([ByteRange(0, 1)], 0), YieldedMatch([ByteRange(1, 2)], 0)], ["x"], "ab")
            == map["x" := ["b"]]
  {
    var caps := [ByteRange(0, 1), ByteRange(1, 2)];
    assert caps[..1] == [ByteRange(0, 1)];
    assert FoldCaptures(map[], caps[..1], 0, ["x"], "ab") == map["x" := []];
    assert Snippet("ab", ByteRange(1, 2)) == "b";
    assert FoldCaptures(map[], caps, 0, ["x"], "ab") == Entry(map["x" := []], "x", "b");
    var m0: CaptureMap := map["x" := []];
    assert m0["x"] + ["b"] == ["b"];
    assert m0["x" := ["b"]] == map["x" := ["b"]];
    assert Entry(m0, "x", "b") == map["x" := ["b"]];
    var single := [YieldedMatch(caps, 0)];
    assert single[..0] == [];
    assert Aggregate(single, ["x"], "ab") == FoldCaptures(map[], caps, 0, ["x"], "ab");
    var one := [YieldedMatch([ByteRange(0, 1)], 0), YieldedMatch([ByteRange(1, 2)], 0)];
    assert one[..1] == [YieldedMatch([ByteRange(0, 1)], 0)];
  }
}
