// How much a reader holds while it waits for more: a head and a body that are still to
// be finished never keep more bytes than the limits allow.
module Buffering {
  import opened Bytes
  import opened Trailers
  import opened BodyFraming
  import opened RequestHead

  // Where the first line of a buffer ends, or how far it goes.
  ghost predicate FirstLine(buffer: bytes, n: nat) {
    n <= |buffer| && (n == |buffer| || CrlfAt(buffer, n)) && forall i :: 0 <= i < n ==> !CrlfAt(buffer, i)
  }

  // The reader waits for the rest of a head exactly when there is no blank line yet and
  // neither the head nor its start line is too long already.
  lemma HeadHeld(rules: UriRules, limits: HeadLimits, buffer: bytes)
    ensures ReadHead(rules, limits, buffer).MoreNeeded? <==>
            (forall i :: 0 <= i ==> !BlankLineAt(buffer, i)) && |buffer| <= limits.maxHeadBytes
            && exists n: nat :: FirstLine(buffer, n) && n <= limits.maxStartLineBytes
  {
    hide CrlfAt, BlankLineAt, ParseHead;
    var n := match FindCrlf(buffer) case None => |buffer| case Some(i) => i;
    CrlfInside(buffer, n);
    assert FirstLine(buffer, n);
    forall m: nat | FirstLine(buffer, m) ensures m == n {
      CrlfInside(buffer, m);
    }
  }

  lemma CrlfInside(s: bytes, n: nat)
    ensures CrlfAt(s, n) ==> n < |s|
  {
  }

  // What a body decoder keeps of its input while it wants more: at most a size line or a
  // trailer block within its limit, without a broken line break; and data not at all.
  lemma {:induction false} BodyHeld(limits: Limits, st: BodyState, s: bytes)
    requires WellFormedState(st) && Run(limits, st, s).Pending?
    ensures
      var next, rest := Run(limits, st, s).state, Run(limits, st, s).rest;
      (rest != [] ==> next.framing.Chunked? && !next.chunkState.Data? && !next.chunkState.Finished?)
      && (next.framing.Chunked? && next.chunkState.Size? ==>
            |rest| <= limits.maxChunkLineBytes && !BrokenBreaks(rest) && forall i :: 0 <= i ==> !CrlfAt(rest, i))
      && (next.framing.Chunked? && next.chunkState.DataTerminator? ==> |rest| < 2)
      && (next.framing.Chunked? && next.chunkState.TrailerBlock? ==>
            |rest| <= limits.maxTrailerBytes && !BrokenBreaks(rest) && FindTrailerEnd(rest).None?)
    decreases |s|
  {
    hide BrokenBreaks, FindTrailerEnd, CrlfAt;
    match Step(limits, st, s)
    case Advance(next, n) => BodyHeld(limits, next, s[n..]);
    case Emit(next, n) => BodyHeld(limits, next, s[n..]);
    case _ =>
  }
}
