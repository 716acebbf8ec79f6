/** Packing pending frames into sync envelopes, and the text of an envelope. */
module EnvelopePacking {
  import opened FrameSplitter

  datatype Limits = Limits(maxItems: nat, maxBytes: nat)

  /** JSON.stringify of an envelope; `metadata` prints every property before the frames. */
  function EnvelopeText(metadata: string, jsons: seq<string>): string {
    "{" + metadata + ",\"frames\":[" + Join(jsons) + "]}"
  }

  /** The text before the frames, as gzipEnvelope cuts it from the text of an envelope without frames. */
  function Prefix(metadata: string): string {
    var empty := EnvelopeText(metadata, []);
    empty[..|empty| - 2]
  }

  lemma PrefixText(metadata: string)
    ensures Prefix(metadata) == "{" + metadata + ",\"frames\":["
  {
  }

  lemma JoinAppend(jsons: seq<string>, json: string)
    ensures Join(jsons + [json]) == (if jsons == [] then json else Join(jsons) + "," + json)
  {
    assert (jsons + [json])[..|jsons|] == jsons;
  }

  /** gzipEnvelope up to compression: the parts in order, and their measured size. */
  method GzipEnvelope(metadata: string, jsons: seq<string>) returns (text: string, bytesUncompressed: nat)
    ensures text == EnvelopeText(metadata, jsons)
    ensures bytesUncompressed == |text|
  {
    text := Prefix(metadata);
    bytesUncompressed := |text|;
    for i := 0 to |jsons|
      invariant text == Prefix(metadata) + Join(jsons[..i])
      invariant bytesUncompressed == |text|
    {
      if i > 0 {
        text, bytesUncompressed := text + ",", bytesUncompressed + 1;
      }
      text, bytesUncompressed := text + jsons[i], bytesUncompressed + |jsons[i]|;
      JoinAppend(jsons[..i], jsons[i]);
      assert jsons[..i + 1] == jsons[..i] + [jsons[i]];
    }
    text, bytesUncompressed := text + "]}", bytesUncompressed + 2;
    assert jsons[..|jsons|] == jsons;
    PrefixText(metadata);
  }

  // Predicted items and bytes of the frames from `start` to before `end`

  function Items(frames: seq<Frame>, start: nat, end: nat): nat
    requires start <= end <= |frames|
  {
    if start == end then 0 else Items(frames, start, end - 1) + RowCount(frames[end - 1])
  }

  function Bytes(jsons: seq<string>, base: nat, start: nat, end: nat): nat
    requires start <= end <= |jsons|
  {
    if start == end then base
      else Bytes(jsons, base, start, end - 1) + |jsons[end - 1]| + (if end - 1 > start then 1 else 0)
  }

  /** The prediction is the size of the text that is sent. */
  lemma {:induction false} PredictedBytes(metadata: string, jsons: seq<string>, start: nat, end: nat)
    requires start <= end <= |jsons|
    ensures Bytes(jsons, |EnvelopeText(metadata, [])|, start, end) == |EnvelopeText(metadata, jsons[start..end])|
    decreases end
  {
    if start < end {
      PredictedBytes(metadata, jsons, start, end - 1);
      JoinAppend(jsons[start..end - 1], jsons[end - 1]);
      assert jsons[start..end] == jsons[start..end - 1] + [jsons[end - 1]];
    }
  }

  predicate WithinLimits(frames: seq<Frame>, jsons: seq<string>, limits: Limits, base: nat, start: nat, end: nat)
    requires start <= end <= |frames| == |jsons|
  {
    Items(frames, start, end) <= limits.maxItems && Bytes(jsons, base, start, end) <= limits.maxBytes
  }

  /** A frame on its own is always sent. */
  predicate Allowed(frames: seq<Frame>, jsons: seq<string>, limits: Limits, base: nat, start: nat, end: nat)
    requires start <= end <= |frames| == |jsons|
  {
    end <= start + 1 || WithinLimits(frames, jsons, limits, base, start, end)
  }

  /** No further frame could have come along. */
  predicate Full(frames: seq<Frame>, jsons: seq<string>, limits: Limits, base: nat, start: nat, end: nat)
    requires start <= end <= |frames| == |jsons|
  {
    end == |frames| || (end > start && !WithinLimits(frames, jsons, limits, base, start, end + 1))
  }

  lemma {:induction false} Narrower(frames: seq<Frame>, jsons: seq<string>, base: nat, start: nat, from: nat,
                                    until: nat, end: nat)
    requires start <= from < until <= end <= |frames| == |jsons|
    ensures Items(frames, from, until) <= Items(frames, start, end)
    ensures Bytes(jsons, base, from, until) <= Bytes(jsons, base, start, end)
    decreases end
  {
    if until < end {
      Narrower(frames, jsons, base, start, from, until, end - 1);
    } else if from < until - 1 {
      Narrower(frames, jsons, base, start, from, until - 1, end - 1);
    } else {
      AtLeastBase(jsons, base, start, end - 1);
    }
  }

  lemma {:induction false} AtLeastBase(jsons: seq<string>, base: nat, start: nat, end: nat)
    requires start <= end <= |jsons|
    ensures Bytes(jsons, base, start, end) >= base
    decreases end
  {
    if start < end { AtLeastBase(jsons, base, start, end - 1); }
  }

  /** _envelopeEnd: as many frames as fit, and at least one. */
  method EnvelopeEnd(frames: seq<Frame>, jsons: seq<string>, limits: Limits, start: nat, baseBytes: nat)
    returns (end: nat)
    requires start <= |frames| == |jsons|
    ensures start <= end <= |frames| && (start < |frames| ==> start < end)
    ensures Allowed(frames, jsons, limits, baseBytes, start, end)
    ensures Full(frames, jsons, limits, baseBytes, start, end)
  {
    end := start;
    var items, bytes := 0, baseBytes;
    while end < |frames|
      invariant start <= end <= |frames|
      invariant items == Items(frames, start, end) && bytes == Bytes(jsons, baseBytes, start, end)
      invariant Allowed(frames, jsons, limits, baseBytes, start, end)
    {
      var nextItems := items + RowCount(frames[end]);
      var nextBytes := bytes + |jsons[end]| + (if end > start then 1 else 0);
      if end > start && (nextItems > limits.maxItems || nextBytes > limits.maxBytes) {
        break;
      }
      items, bytes := nextItems, nextBytes;
      end := end + 1;
    }
  }

  // The envelopes of one batch

  /** Where each envelope ends; the first entry is where the first one starts. */
  ghost predicate Cuts(cuts: seq<nat>, n: nat) {
    && |cuts| >= 2 && cuts[0] == 0 && (n == 0 ==> |cuts| == 2)
    && (forall i :: 0 <= i < |cuts| ==> cuts[i] <= n)
    && (forall i :: 0 <= i < |cuts| - 1 ==> cuts[i] <= cuts[i + 1] && (n > 0 ==> cuts[i] < cuts[i + 1]))
  }

  ghost predicate InOrder(cuts: seq<nat>, n: nat) {
    && (forall i :: 0 <= i < |cuts| ==> cuts[i] <= n)
    && (forall i :: 0 <= i < |cuts| - 1 ==> cuts[i] <= cuts[i + 1])
  }

  ghost function Pieces(jsons: seq<string>, cuts: seq<nat>): seq<seq<string>>
    requires InOrder(cuts, |jsons|)
  {
    if |cuts| < 2 then [] else [jsons[cuts[0]..cuts[1]]] + Pieces(jsons, cuts[1..])
  }

  function Flatten<T>(s: seq<seq<T>>): seq<T> {
    if s == [] then [] else s[0] + Flatten(s[1..])
  }

  lemma {:induction false} PiecesFlatten(jsons: seq<string>, cuts: seq<nat>)
    requires cuts != [] && InOrder(cuts, |jsons|)
    ensures cuts[0] <= cuts[|cuts| - 1]
    ensures Flatten(Pieces(jsons, cuts)) == jsons[cuts[0]..cuts[|cuts| - 1]]
  {
    if |cuts| >= 2 {
      PiecesFlatten(jsons, cuts[1..]);
      assert jsons[cuts[0]..cuts[1]] + jsons[cuts[1]..cuts[|cuts| - 1]] == jsons[cuts[0]..cuts[|cuts| - 1]];
    }
  }

  /**
   What was posted: each envelope is the next run of frames, within the limits unless it is a single frame, and
   full.
   */
  ghost predicate Posted(frames: seq<Frame>, jsons: seq<string>, limits: Limits, metadata: nat -> string,
                         cuts: seq<nat>, texts: seq<string>)
    requires |frames| == |jsons|
  {
    && Cuts(cuts, |frames|) && |texts| == |cuts| - 1
    && forall i :: 0 <= i < |texts| ==> IsEnvelope(frames, jsons, limits, metadata(i), cuts[i], cuts[i + 1], texts[i])
  }

  ghost predicate IsEnvelope(frames: seq<Frame>, jsons: seq<string>, limits: Limits, metadata: string, start: nat,
                             end: nat, text: string)
    requires |frames| == |jsons|
  {
    && start <= end <= |frames|
    && text == EnvelopeText(metadata, jsons[start..end])
    && (end - start > 1 ==> Items(frames, start, end) <= limits.maxItems && |text| <= limits.maxBytes)
    && Full(frames, jsons, limits, |EnvelopeText(metadata, [])|, start, end)
  }

  lemma EnvelopeIsRight(frames: seq<Frame>, jsons: seq<string>, limits: Limits, metadata: string, start: nat,
                        end: nat, text: string)
    requires start <= end <= |frames| == |jsons| && text == EnvelopeText(metadata, jsons[start..end])
    requires Allowed(frames, jsons, limits, |EnvelopeText(metadata, [])|, start, end)
    requires Full(frames, jsons, limits, |EnvelopeText(metadata, [])|, start, end)
    ensures IsEnvelope(frames, jsons, limits, metadata, start, end, text)
  {
    PredictedBytes(metadata, jsons, start, end);
    hide EnvelopeText, Items, Bytes, Full;
  }

  lemma NextCut(cuts: seq<nat>, n: nat, end: nat)
    requires (|cuts| >= 2 && Cuts(cuts, n)) || cuts == [0]
    requires cuts[|cuts| - 1] <= end <= n && (n > 0 ==> cuts[|cuts| - 1] < end) && (n == 0 ==> cuts == [0])
    ensures Cuts(cuts + [end], n)
  {
  }

  lemma PostedNext(frames: seq<Frame>, jsons: seq<string>, limits: Limits, metadata: nat -> string,
                   cuts: seq<nat>, texts: seq<string>, end: nat, text: string)
    requires |frames| == |jsons| && |texts| == |cuts| - 1
    requires if texts == [] then cuts == [0] else Posted(frames, jsons, limits, metadata, cuts, texts)
    requires cuts[|cuts| - 1] < |frames| || texts == []
    requires IsEnvelope(frames, jsons, limits, metadata(|texts|), cuts[|cuts| - 1], end, text)
    requires |frames| > 0 ==> cuts[|cuts| - 1] < end
    ensures Posted(frames, jsons, limits, metadata, cuts + [end], texts + [text])
  {
    NextCut(cuts, |frames|, end);
    hide IsEnvelope, Cuts;
  }

  /**
   The loop of _sendPending. The metadata of the k-th envelope may differ, because a response can bring a new
   configuration version, and `accepts` says which posts succeed. A failed post ends the loop, and `lost`
   counts its frames and all that follow.
   */
  method SendPending(frames: seq<Frame>, jsons: seq<string>, limits: Limits, metadata: nat -> string,
                     accepts: nat -> bool)
    returns (ok: bool, cuts: seq<nat>, texts: seq<string>, lost: nat)
    requires |frames| == |jsons|
    ensures Posted(frames, jsons, limits, metadata, cuts, texts)
    ensures forall i :: 0 <= i < |texts| - 1 ==> accepts(i)
    ensures ok <==> accepts(|texts| - 1)
    ensures ok ==> cuts[|cuts| - 1] == |frames| && lost == 0
    ensures !ok ==> lost == |frames| - cuts[|cuts| - 2]
  {
    hide *;
    var start: nat := 0;
    cuts, texts, lost, ok := [0], [], 0, true;
    while ok && (texts == [] || start < |frames|)
      invariant start <= |frames| && |texts| == |cuts| - 1
      invariant texts == [] ==> cuts == [0] && start == 0 && ok
      invariant texts != [] ==> Posted(frames, jsons, limits, metadata, cuts, texts)
      invariant ok ==> cuts[|cuts| - 1] == start && lost == 0
      invariant texts != [] ==> (ok <==> accepts(|texts| - 1))
      invariant !ok ==> lost == |frames| - cuts[|cuts| - 2]
      invariant forall i :: 0 <= i < |texts| - 1 ==> accepts(i)
      decreases ok, |frames| - start, |texts| == 0
    {
      var envelope := metadata(|texts|);
      var base := |EnvelopeText(envelope, [])|;
      var end := EnvelopeEnd(frames, jsons, limits, start, base);
      var unsentFrames := |frames| - start;
      var text, _ := GzipEnvelope(envelope, jsons[start..end]);
      EnvelopeIsRight(frames, jsons, limits, envelope, start, end, text);
      PostedNext(frames, jsons, limits, metadata, cuts, texts, end, text);
      ok := accepts(|texts|);
      cuts, texts := cuts + [end], texts + [text];
      if ok { start := end; } else { lost := unsentFrames; }
    }
  }

  /** A successful send posts every pending frame exactly once, in order. */
  lemma SentOnceInOrder(frames: seq<Frame>, jsons: seq<string>, limits: Limits, metadata: nat -> string,
                        cuts: seq<nat>, texts: seq<string>)
    requires |frames| == |jsons| && Posted(frames, jsons, limits, metadata, cuts, texts) && cuts[|cuts| - 1] == |frames|
    ensures Flatten(Pieces(jsons, cuts)) == jsons && |Pieces(jsons, cuts)| == |texts|
    ensures forall i :: 0 <= i < |texts| ==> texts[i] == EnvelopeText(metadata(i), Pieces(jsons, cuts)[i])
  {
    PiecesFlatten(jsons, cuts);
    PiecesAt(jsons, cuts);
    forall i | 0 <= i < |texts| ensures texts[i] == EnvelopeText(metadata(i), Pieces(jsons, cuts)[i]) {
      assert IsEnvelope(frames, jsons, limits, metadata(i), cuts[i], cuts[i + 1], texts[i]);
    }
  }

  lemma {:induction false} PiecesAt(jsons: seq<string>, cuts: seq<nat>)
    requires cuts != [] && InOrder(cuts, |jsons|)
    ensures |Pieces(jsons, cuts)| == |cuts| - 1
    ensures forall i :: 0 <= i < |cuts| - 1 ==> Pieces(jsons, cuts)[i] == jsons[cuts[i]..cuts[i + 1]]
  {
    if |cuts| >= 2 { PiecesAt(jsons, cuts[1..]); }
  }

  // Minimality

  /** Any way to send all the frames, in order, in envelopes that are within the limits or hold one frame. */
  ghost predicate IsPacking(frames: seq<Frame>, jsons: seq<string>, limits: Limits, base: nat, cuts: seq<nat>)
    requires |frames| == |jsons|
  {
    && Cuts(cuts, |frames|) && cuts[|cuts| - 1] == |frames|
    && forall i :: 0 <= i < |cuts| - 1 ==>
       cuts[i] <= cuts[i + 1] && Allowed(frames, jsons, limits, base, cuts[i], cuts[i + 1])
  }

  ghost predicate IsGreedy(frames: seq<Frame>, jsons: seq<string>, limits: Limits, base: nat, cuts: seq<nat>)
    requires |frames| == |jsons| && Cuts(cuts, |frames|)
  {
    forall i :: 0 <= i < |cuts| - 1 ==> Full(frames, jsons, limits, base, cuts[i], cuts[i + 1])
  }

  lemma {:induction false} StaysAhead(frames: seq<Frame>, jsons: seq<string>, limits: Limits, base: nat,
                                      greedy: seq<nat>, other: seq<nat>, i: nat)
    requires |frames| == |jsons| && IsPacking(frames, jsons, limits, base, other)
    requires Cuts(greedy, |frames|) && IsGreedy(frames, jsons, limits, base, greedy)
    requires i < |greedy| && i < |other|
    ensures other[i] <= greedy[i]
  {
    if i > 0 {
      StaysAhead(frames, jsons, limits, base, greedy, other, i - 1);
      if greedy[i] < other[i] {
        assert Full(frames, jsons, limits, base, greedy[i - 1], greedy[i]);
        assert Allowed(frames, jsons, limits, base, other[i - 1], other[i]);
        Narrower(frames, jsons, base, other[i - 1], greedy[i - 1], greedy[i] + 1, other[i]);
        assert false;
      }
    }
  }

  /** When the metadata does not change, no other packing has fewer envelopes. */
  lemma FewestEnvelopes(frames: seq<Frame>, jsons: seq<string>, limits: Limits, metadata: nat -> string,
                        cuts: seq<nat>, texts: seq<string>, other: seq<nat>)
    requires |frames| == |jsons| && Posted(frames, jsons, limits, metadata, cuts, texts)
    requires forall i :: metadata(i) == metadata(0)
    requires IsPacking(frames, jsons, limits, |EnvelopeText(metadata(0), [])|, other)
    ensures |cuts| <= |other|
  {
    var base := |EnvelopeText(metadata(0), [])|;
    forall i | 0 <= i < |cuts| - 1 ensures Full(frames, jsons, limits, base, cuts[i], cuts[i + 1]) {
      assert IsEnvelope(frames, jsons, limits, metadata(i), cuts[i], cuts[i + 1], texts[i]);
    }
    if |cuts| > |other| {
      var last := |other| - 1;
      assert |frames| > 0 && cuts[last] < cuts[last + 1] <= |frames|;
      StaysAhead(frames, jsons, limits, base, cuts, other, last);
    }
  }
}
