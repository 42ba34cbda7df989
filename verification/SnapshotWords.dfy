/** A lane snapshot as the words it is copied by, and back. */
module SnapshotWords {
  import opened Common
  import opened Admission
  import L = LatestSnapshot

  /** One field of a snapshot in slot memory. */
  datatype Field = Num(n: nat) | Flag(b: bool) | Result(business: Option<Business>) | Peer(peer: Option<nat>)

  const WIDTH: nat := 13

  function Encode(o: Observation): (words: seq<Field>)
    ensures |words| == WIDTH
  {
    [Num(o.sequence), Num(o.observedAtNs), Num(o.poolGeneration), Flag(o.quarantined), Result(o.business), Flag(o.busy),
     Num(o.failures), Num(o.slow), Num(o.noResponse), Num(o.slowRetired), Num(o.slowRetiredGeneration),
     Num(o.noResponseGeneration), Peer(o.noResponsePeer)]
  }

  predicate Shaped(cells: seq<L.Cell<Field>>) {
    && |cells| == WIDTH && (forall i :: 0 <= i < WIDTH ==> cells[i].Word?)
    && cells[0].value.Num? && cells[1].value.Num? && cells[2].value.Num? && cells[3].value.Flag?
    && cells[4].value.Result? && cells[5].value.Flag? && cells[6].value.Num? && cells[7].value.Num?
    && cells[8].value.Num? && cells[9].value.Num? && cells[10].value.Num? && cells[11].value.Num?
    && cells[12].value.Peer?
  }

  /** What the receiver makes of the words it copied; a torn copy would decode to a snapshot that
      nobody published. */
  function Decode(cells: seq<L.Cell<Field>>): Option<Observation> {
    if !Shaped(cells) then None
    else Some(Observation(cells[0].value.n, cells[1].value.n, cells[2].value.n, cells[3].value.b,
                          cells[4].value.business, cells[5].value.b, cells[6].value.n, cells[7].value.n,
                          cells[8].value.n, cells[9].value.n,
                          cells[10].value.n, cells[11].value.n, cells[12].value.peer))
  }

  lemma RoundTrip(o: Observation)
    ensures Decode(L.Words(Encode(o))) == Some(o)
  {
    var cells := L.Words(Encode(o));
    assert forall i :: 0 <= i < WIDTH ==> cells[i] == L.Word(Encode(o)[i]);
  }
}
