/** The type a reply is sent under. The reply callback splits the inbound
    event type on '.', and when the second segment is exactly "get-update" it
    replaces that segment by "update" and joins again, so that a request
    `foo.get-update` is answered as `foo.update`. Every other type is answered
    under itself. */
module ReplyTypes {
  import opened Segments

  const Separator: char := '.'
  const GetUpdate: string := "get-update"
  const Update: string := "update"

  /** `chunks[1] === 'get-update'`: false when there is no second segment,
      so only a type holding a '.' can qualify. */
  predicate IsGetUpdate(t: string)
    ensures IsGetUpdate(t) ==> Separator in t
  {
    var chunks := Split(t, Separator);
    SeveralSegmentsIff(t, Separator);
    |chunks| >= 2 && chunks[1] == GetUpdate
  }

  /** The `type` field of the envelope the reply callback sends. Its
      segments are those of the inbound type with the second replaced by
      "update" exactly when it was "get-update": the segment count and every
      other segment are unchanged. Any other type is sent back as it came. */
  function ReplyType(t: string): (r: string)
    ensures Split(r, Separator)
         == if IsGetUpdate(t) then Split(t, Separator)[1 := Update] else Split(t, Separator)
    ensures !IsGetUpdate(t) ==> r == t
  {
    var chunks := Split(t, Separator);
    if |chunks| >= 2 && chunks[1] == GetUpdate then
      var replaced := chunks[1 := Update];
      assert forall i :: 0 <= i < |replaced| ==> Separator !in replaced[i];
      SplitJoin(replaced, Separator);
      Join(replaced, Separator)
    else t
  }

  /** The reply type differs from the inbound type exactly when the second
      segment is "get-update"; a "get-update" anywhere else, or a type with no
      '.', is answered under the inbound type unchanged. */
  lemma ReplyTypeChangedIff(t: string)
    ensures ReplyType(t) != t <==> IsGetUpdate(t)
  {
    if IsGetUpdate(t) {
      assert Split(ReplyType(t), Separator)[1] == Update != GetUpdate;
    }
  }

  /** Rewriting an already rewritten type changes nothing. */
  lemma ReplyTypeIdempotent(t: string)
    ensures ReplyType(ReplyType(t)) == ReplyType(t)
  {
    ReplyTypeChangedIff(ReplyType(t));
  }

  /** The segments of `ns` + "." + `seg` + `tail`, when neither `ns` nor
      `seg` holds a '.' and `tail` is empty or starts with one. */
  lemma {:induction false} SegmentsOfTwoPlusTail(ns: string, seg: string, tail: string)
    requires Separator !in ns && Separator !in seg
    requires tail == [] || tail[0] == Separator
    ensures Split(ns + [Separator] + seg + tail, Separator)
         == [ns, seg] + (if tail == [] then [] else Split(tail[1..], Separator))
  {
    assert ns + [Separator] + seg + tail == ns + [Separator] + (seg + tail);
    SplitAfterSegment(ns, seg + tail, Separator);
    if tail == [] {
      assert seg + tail == seg;
      SplitWithoutSeparator(seg, Separator);
    } else {
      assert seg + tail == seg + [Separator] + tail[1..];
      SplitAfterSegment(seg, tail[1..], Separator);
    }
  }

  /** The rewrite on the characters themselves: a first segment `ns`, then
      ".get-update", then either the end or a further '.'-led tail, is
      answered as `ns` + ".update" + the same tail. */
  lemma ReplyTypeOfRequest(ns: string, tail: string)
    requires Separator !in ns
    requires tail == [] || tail[0] == Separator
    ensures ReplyType(ns + [Separator] + GetUpdate + tail) == ns + [Separator] + Update + tail
  {
    var t := ns + [Separator] + GetUpdate + tail;
    var expected := ns + [Separator] + Update + tail;
    SegmentsOfTwoPlusTail(ns, GetUpdate, tail);
    SegmentsOfTwoPlusTail(ns, Update, tail);
    assert Split(ReplyType(t), Separator) == Split(expected, Separator);
    SplitInjective(ReplyType(t), expected, Separator);
  }

  /** A second segment other than "get-update" leaves the type as it is,
      whatever follows it. */
  lemma ReplyTypeOfOtherRequest(ns: string, seg: string, tail: string)
    requires Separator !in ns && Separator !in seg && seg != GetUpdate
    requires tail == [] || tail[0] == Separator
    ensures ReplyType(ns + [Separator] + seg + tail) == ns + [Separator] + seg + tail
  {
    SegmentsOfTwoPlusTail(ns, seg, tail);
    ReplyTypeChangedIff(ns + [Separator] + seg + tail);
  }
}
