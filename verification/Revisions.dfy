/** Making new revisions: what every backend shares. */
module Revisions {
  import opened Replicas
  import opened VectorClocks
  import opened Wrappers

  method AllocateDocRev(uid: string, rev: Option<Clock>) returns (newRev: Clock)
    ensures newRev == Increment(if rev == None then ZERO else rev.value, uid)
  {
    var vcr := new VectorClockRev(if rev == None then map[] else rev.value);
    vcr.IncrementFor(uid);
    newRev := vcr.values;
  }

  method EnsureMaximalRev(uid: string, curRev: Clock, extraRevs: seq<Clock>) returns (newRev: Clock)
    ensures newRev == MaximalRev(uid, curRev, extraRevs)
  {
    var vcr := new VectorClockRev(curRev);
    for i := 0 to |extraRevs|
      invariant vcr.values == JoinAll(curRev, extraRevs[..i])
    {
      assert extraRevs[..i + 1][..i] == extraRevs[..i];
      var other := new VectorClockRev(extraRevs[i]);
      vcr.Maximize(other);
    }
    assert extraRevs[..|extraRevs|] == extraRevs;
    vcr.IncrementFor(uid);
    newRev := vcr.values;
  }
}
