/** The id spaces that meet at the child: forwarded requests, heartbeat probes, numbers. */
module Ids {
  import Text

  /** `c<client>:<seq>` */
  function GlobalId(client: nat, sequence: nat): string {
    "c" + Text.Decimal(client) + ":" + Text.Decimal(sequence)
  }

  /** `__heartbeat_<n>` */
  function HeartbeatId(n: nat): string {
    "__heartbeat_" + Text.Decimal(n)
  }

  predicate IsHeartbeatResponse(id: string) {
    Text.StartsWith(id, "__heartbeat_")
  }

  /** What the ids look like. */
  lemma Formats()
    ensures GlobalId(12, 7) == "c12:7" && HeartbeatId(3) == "__heartbeat_3"
  {
    assert Text.Decimal(12) == Text.Decimal(1) + [Text.Digit(2)];
  }

  /** Whether some client was given this id with a sequence number below `limit`. */
  ghost predicate IssuedBelow(id: string, limit: nat) {
    exists client: nat, sequence: nat :: sequence < limit && id == GlobalId(client, sequence)
  }

  ghost predicate FirstColonAt(s: string, i: nat) {
    i < |s| && s[i] == ':' && forall j :: 0 <= j < i ==> s[j] != ':'
  }

  lemma ClientDigitsEndAtColon(client: nat, sequence: nat)
    ensures FirstColonAt(GlobalId(client, sequence), |Text.Decimal(client)| + 1)
  {
    Text.DecimalRoundTrip(client);
    var a, g := Text.Decimal(client), GlobalId(client, sequence);
    forall j | 0 <= j < |a| + 1 ensures g[j] != ':' {
      if j > 0 { assert g[j] == a[j - 1]; }
    }
  }

  /** A global id determines both the client and the sequence number in it. */
  lemma GlobalIdInjective(c: nat, m: nat, d: nat, n: nat)
    requires GlobalId(c, m) == GlobalId(d, n)
    ensures c == d && m == n
  {
    var i, g, h := |Text.Decimal(c)| + 1, GlobalId(c, m), GlobalId(d, n);
    ClientDigitsEndAtColon(c, m);
    ClientDigitsEndAtColon(d, n);
    assert g[1..i] == Text.Decimal(c) && h[1..i] == Text.Decimal(d);
    assert g[i + 1..] == Text.Decimal(m) && h[i + 1..] == Text.Decimal(n);
    Text.DecimalInjective(c, d);
    Text.DecimalInjective(m, n);
  }

  /** The next sequence number always gives an id nobody has. */
  lemma NextIdIsFresh(client: nat, limit: nat)
    ensures !IssuedBelow(GlobalId(client, limit), limit)
  {
    forall c: nat, n: nat | n < limit && GlobalId(client, limit) == GlobalId(c, n) ensures false {
      GlobalIdInjective(client, limit, c, n);
    }
  }

  lemma IssuedMonotone(id: string, low: nat, high: nat)
    requires IssuedBelow(id, low) && low <= high
    ensures IssuedBelow(id, high)
  {
  }

  /** Forwarded ids, heartbeat ids and integer ids never coincide. */
  lemma IdSpacesDisjoint(client: nat, sequence: nat, probe: nat, n: int)
    ensures !IsHeartbeatResponse(GlobalId(client, sequence))
    ensures IsHeartbeatResponse(HeartbeatId(probe))
    ensures Text.SignedDecimal(n) != GlobalId(client, sequence)
    ensures !IsHeartbeatResponse(Text.SignedDecimal(n))
  {
    assert GlobalId(client, sequence)[0] == 'c';
    assert "__heartbeat_"[0] == '_';
    Text.DecimalRoundTrip(if n < 0 then -n else n);
    assert Text.SignedDecimal(n)[0] == '-' || Text.IsDigit(Text.SignedDecimal(n)[0]);
  }
}
