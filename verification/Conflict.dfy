/** internal/daemon/daemon.go: last-writer-wins conflict resolution, and the order on node names
    that breaks its ties. */
module Conflict {
  import opened Base

  /** Go's `a < b` on strings. */
  predicate Below(a: string, b: string) {
    b != "" && (a == "" || a[0] < b[0] || (a[0] == b[0] && Below(a[1..], b[1..])))
  }

  lemma {:induction false} BelowTotal(a: string, b: string)
    ensures a != b ==> Below(a, b) || Below(b, a)
    ensures !(Below(a, b) && Below(b, a))
    ensures !Below(a, a)
    decreases |a|
  {
    if a != "" {
      BelowTotal(a[1..], a[1..]);
      if b != "" {
        BelowTotal(a[1..], b[1..]);
        assert a == [a[0]] + a[1..] && b == [b[0]] + b[1..];
      }
    }
  }

  lemma {:induction false} BelowTransitive(a: string, b: string, c: string)
    requires Below(a, b) && Below(b, c)
    ensures Below(a, c)
  {
    if a != "" && a[0] == b[0] == c[0] {
      BelowTransitive(a[1..], b[1..], c[1..]);
    }
  }

  /** The order, without recursion: at the first place where the strings part, one has ended and the other has not, or
      its character is the smaller one. */
  lemma {:induction false} BelowIff(a: string, b: string)
    ensures Below(a, b) <==>
      exists k: nat :: k <= |a| && k <= |b| && a[..k] == b[..k] &&
        (k == |a| < |b| || (k < |a| && k < |b| && a[k] < b[k]))
    decreases |a|
  {
    if a != "" && b != "" && a[0] == b[0] {
      BelowIff(a[1..], b[1..]);
      if Below(a, b) {
        var k: nat :| k <= |a[1..]| && k <= |b[1..]| && a[1..][..k] == b[1..][..k] &&
          (k == |a[1..]| < |b[1..]| || (k < |a[1..]| && k < |b[1..]| && a[1..][k] < b[1..][k]));
        PrefixGrows(a, b, k);
      } else {
        forall k: nat | k <= |a| && k <= |b| && a[..k] == b[..k]
          ensures !(k == |a| < |b| || (k < |a| && k < |b| && a[k] < b[k]))
        {
          if k > 0 {
            PrefixGrows(a, b, k - 1);
          }
        }
      }
    } else {
      PartAtOnce(a, b);
    }
  }

  lemma PrefixGrows(a: string, b: string, k: nat)
    requires k + 1 <= |a| && k + 1 <= |b| && a[0] == b[0]
    ensures a[..k + 1] == b[..k + 1] <==> a[1..][..k] == b[1..][..k]
  {
    assert a[..k + 1] == [a[0]] + a[1..][..k] && b[..k + 1] == [b[0]] + b[1..][..k];
    assert a[..k + 1][1..] == a[1..][..k] && b[..k + 1][1..] == b[1..][..k];
  }

  lemma PartAtOnce(a: string, b: string)
    requires a == "" || b == "" || a[0] != b[0]
    ensures a[..0] == b[..0]
    ensures forall k: nat | 0 < k <= |a| && k <= |b| :: a[..k] != b[..k]
  {
    forall k: nat | 0 < k <= |a| && k <= |b| ensures a[..k] != b[..k] {
      assert a[..k][0] == a[0] && b[..k][0] == b[0];
    }
  }

  /** A non-empty set of names has a greatest one. */
  lemma {:induction false} GreatestName(names: set<string>) returns (top: string)
    requires names != {}
    ensures top in names && forall k | k in names && k != top :: Below(k, top)
  {
    var one :| one in names;
    var rest := names - {one};
    assert names == rest + {one};
    if rest == {} {
      return one;
    }
    var other := GreatestName(rest);
    BelowTotal(one, other);
    if Below(one, other) {
      return other;
    }
    forall k | k in rest && k != other ensures Below(k, one) {
      BelowTransitive(k, other, one);
    }
    top := one;
  }

  /** Higher Lamport timestamp wins; a tie goes to the greater name of the current holder. */
  predicate RemoteWins(localTs: nat, localNode: string, remoteTs: nat, remoteNode: string) {
    if remoteTs != localTs then remoteTs > localTs else Below(localNode, remoteNode)
  }

  /** Who wins, in full: a later timestamp, or the same one and a name that is greater at the first difference. */
  lemma RemoteWinsIff(localTs: nat, localNode: string, remoteTs: nat, remoteNode: string)
    ensures RemoteWins(localTs, localNode, remoteTs, remoteNode) <==>
      || localTs < remoteTs
      || (localTs == remoteTs &&
          exists k: nat :: k <= |localNode| && k <= |remoteNode| && localNode[..k] == remoteNode[..k] &&
            (k == |localNode| < |remoteNode| ||
             (k < |localNode| && k < |remoteNode| && localNode[k] < remoteNode[k])))
  {
    BelowIff(localNode, remoteNode);
  }

  /** The test an announcement and a catalogue entry go through before a sync is started. */
  predicate StartsSync(local: Option<FileMeta>, localNode: string, root: Hash, ts: nat, remoteNode: string) {
    local.None? ||
    (local.value.merkleRoot != root && RemoteWins(local.value.lamportTs, localNode, ts, remoteNode))
  }

  lemma WinnerIsAntisymmetric(ts0: nat, name0: string, ts1: nat, name1: string)
    requires name0 != name1
    ensures RemoteWins(ts0, name0, ts1, name1) <==> !RemoteWins(ts1, name1, ts0, name0)
  {
    BelowTotal(name0, name1);
  }

  lemma WinnerIsTransitive(ts0: nat, name0: string, ts1: nat, name1: string, ts2: nat, name2: string)
    requires RemoteWins(ts0, name0, ts1, name1) && RemoteWins(ts1, name1, ts2, name2)
    ensures RemoteWins(ts0, name0, ts2, name2)
  {
    if ts0 == ts1 == ts2 {
      BelowTransitive(name0, name1, name2);
    }
  }
}
