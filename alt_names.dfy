/**
  The alt_names part of the second-stage template that the profile carries:

      DNS.1 = {{ cn }}, then for each domain of sans with a non-empty value,
      DNS.{{ loop.index +1 }} = {{ domain }}

  `loop.index` counts every item of `sans` from 1, blank ones included, so a blank
  entry emits nothing yet still uses up a number. Each entry is modelled as its number
  and its domain; whitespace control puts every SAN on a line of its own.
*/
module AltNames {

  datatype DnsEntry = Dns(n: nat, domain: string)

  /**
    The `for` loop over `sans` when the first item's `loop.index` is `index`. Every
    emitted entry is a non-empty item, numbered one more than its own `loop.index`, and
    numbers increase from one entry to the next.
  */
  function SanEntries(sans: seq<string>, index: nat): (r: seq<DnsEntry>)
    ensures |r| <= |sans|
    ensures forall k | 0 <= k < |r| :: EmittedFrom(r[k], sans, index)
    ensures forall k | 0 <= k < |r| - 1 :: r[k].n < r[k + 1].n
    decreases |sans|
  {
    if |sans| == 0 then []
    else
      var rest := SanEntries(sans[1..], index + 1);
      var head := if sans[0] != "" then [Dns(index + 1, sans[0])] else [];
      var r := head + rest;
      assert forall k | 0 <= k < |rest| :: EmittedFrom(rest[k], sans, index) by {
        forall k | 0 <= k < |rest| ensures EmittedFrom(rest[k], sans, index) {
          assert EmittedFrom(rest[k], sans[1..], index + 1);
          assert sans[1..][rest[k].n - index - 2] == sans[rest[k].n - index - 1];
        }
      }
      assert forall k | 0 <= k < |r| :: r[k] == if k < |head| then head[k] else rest[k - |head|];
      r
  }

  /** `e` is what the loop emits for a non-empty item of `sans` whose loop.index is e.n - 1. */
  predicate EmittedFrom(e: DnsEntry, sans: seq<string>, index: nat) {
    && index + 1 <= e.n <= index + |sans|
    && e.domain == sans[e.n - index - 1]
    && e.domain != ""
  }

  /**
    The alt_names entries for a common name and a list of SANs: DNS.1 is the common name;
    the SAN at 1-based position i, when non-empty, is DNS.(i+1), so the SAN numbers lie in
    2..|sans|+1, follow the input order, and leave a gap for each blank SAN.
  */
  function AltNames(cn: string, sans: seq<string>): (r: seq<DnsEntry>)
    ensures |r| >= 1 && r[0] == Dns(1, cn)
    ensures forall k | 1 <= k < |r| :: EmittedFrom(r[k], sans, 1)
    ensures forall k | 0 <= k < |r| - 1 :: r[k].n < r[k + 1].n
  {
    var rest := SanEntries(sans, 1);
    assert forall k | 1 <= k < 1 + |rest| :: ([Dns(1, cn)] + rest)[k] == rest[k - 1];
    [Dns(1, cn)] + rest
  }

  /** Numbers that increase from one entry to the next increase across the whole list. */
  lemma {:induction false} StrictlyIncreasing(r: seq<DnsEntry>)
    requires forall k | 0 <= k < |r| - 1 :: r[k].n < r[k + 1].n
    ensures forall k1, k2 | 0 <= k1 < k2 < |r| :: r[k1].n < r[k2].n
    decreases |r|
  {
    if |r| > 1 {
      StrictlyIncreasing(r[1..]);
      forall k1, k2 | 0 <= k1 < k2 < |r| ensures r[k1].n < r[k2].n {
        if k1 > 0 {
          assert r[1..][k1 - 1] == r[k1] && r[1..][k2 - 1] == r[k2];
        } else if k2 > 1 {
          assert r[1..][0] == r[1] && r[1..][k2 - 1] == r[k2];
        }
      }
    }
  }

  /** No non-empty item is skipped: the item with loop.index i is emitted as DNS.(i+1). */
  lemma {:induction false} NonBlankEmitted(sans: seq<string>, index: nat, j: nat)
    requires j < |sans| && sans[j] != ""
    ensures Dns(index + j + 1, sans[j]) in SanEntries(sans, index)
    decreases |sans|
  {
    var rest := SanEntries(sans[1..], index + 1);
    var head := if sans[0] != "" then [Dns(index + 1, sans[0])] else [];
    assert SanEntries(sans, index) == head + rest;
    if j > 0 {
      NonBlankEmitted(sans[1..], index + 1, j - 1);
      assert sans[1..][j - 1] == sans[j];
    }
  }

  /**
    The numbering rule in full: DNS.1 is the common name; every non-empty SAN at 0-based
    position j is DNS.(j+2); every other entry is one of those, with numbers strictly
    increasing in input order.
  */
  lemma Numbering(cn: string, sans: seq<string>)
    ensures var r := AltNames(cn, sans);
      && (forall j | 0 <= j < |sans| && sans[j] != "" :: Dns(j + 2, sans[j]) in r)
      && (forall k1, k2 | 0 <= k1 < k2 < |r| :: r[k1].n < r[k2].n)
  {
    var r := AltNames(cn, sans);
    StrictlyIncreasing(r);
    forall j | 0 <= j < |sans| && sans[j] != "" ensures Dns(j + 2, sans[j]) in r {
      NonBlankEmitted(sans, 1, j);
    }
  }

  /** The non-empty items of `sans`, in order. */
  function NonBlank(sans: seq<string>): seq<string> {
    if |sans| == 0 then []
    else (if sans[0] != "" then [sans[0]] else []) + NonBlank(sans[1..])
  }

  function Domains(entries: seq<DnsEntry>): seq<string> {
    if |entries| == 0 then [] else [entries[0].domain] + Domains(entries[1..])
  }

  lemma {:induction false} DomainsAppend(a: seq<DnsEntry>, b: seq<DnsEntry>)
    ensures Domains(a + b) == Domains(a) + Domains(b)
    decreases |a|
  {
    if |a| > 0 {
      assert (a + b)[1..] == a[1..] + b;
      DomainsAppend(a[1..], b);
    } else {
      assert a + b == b;
    }
  }

  lemma {:induction false} SanDomains(sans: seq<string>, index: nat)
    ensures Domains(SanEntries(sans, index)) == NonBlank(sans)
    decreases |sans|
  {
    if |sans| > 0 {
      var head: seq<DnsEntry> := if sans[0] != "" then [Dns(index + 1, sans[0])] else [];
      DomainsAppend(head, SanEntries(sans[1..], index + 1));
      SanDomains(sans[1..], index + 1);
      if sans[0] != "" {
        assert Domains(head) == [sans[0]] by {
          assert Domains(head[1..]) == [];
        }
      }
    }
  }

  /**
    The emitted domains are the common name followed by exactly the non-empty SANs, in
    input order; so there is one entry more than there are non-empty SANs.
  */
  lemma DomainsInOrder(cn: string, sans: seq<string>)
    ensures Domains(AltNames(cn, sans)) == [cn] + NonBlank(sans)
    ensures |AltNames(cn, sans)| == 1 + |NonBlank(sans)|
  {
    var r := AltNames(cn, sans);
    DomainsAppend([Dns(1, cn)], SanEntries(sans, 1));
    assert Domains([Dns(1, cn)]) == [cn] by {
      assert Domains([Dns(1, cn)][1..]) == [];
    }
    SanDomains(sans, 1);
    DomainsLength(r);
  }

  lemma {:induction false} DomainsLength(entries: seq<DnsEntry>)
    ensures |Domains(entries)| == |entries|
    decreases |entries|
  {
    if |entries| > 0 {
      DomainsLength(entries[1..]);
    }
  }

  /** Without blank SANs the numbering is dense: the k-th entry is DNS.(k+1). */
  lemma {:induction false} DenseWithoutBlanks(sans: seq<string>, index: nat)
    requires forall j | 0 <= j < |sans| :: sans[j] != ""
    ensures |SanEntries(sans, index)| == |sans|
    ensures forall k | 0 <= k < |sans| :: SanEntries(sans, index)[k] == Dns(index + k + 1, sans[k])
    decreases |sans|
  {
    if |sans| > 0 {
      DenseWithoutBlanks(sans[1..], index + 1);
      var rest := SanEntries(sans[1..], index + 1);
      assert SanEntries(sans, index) == [Dns(index + 1, sans[0])] + rest;
    }
  }

  /** With no SANs only DNS.1, the common name, is emitted. */
  lemma OnlyCommonName(cn: string)
    ensures AltNames(cn, []) == [Dns(1, cn)]
  {
  }

  /**
    A blank first SAN is skipped but keeps its number: the two named SANs become DNS.3 and
    DNS.4, and no DNS.2 is emitted.
  */
  lemma BlankLeavesGap()
    ensures AltNames("example.com", ["", "a.example.com", "b.example.com"]) ==
      [Dns(1, "example.com"), Dns(3, "a.example.com"), Dns(4, "b.example.com")]
  {
    var sans := ["", "a.example.com", "b.example.com"];
    DenseWithoutBlanks(sans[1..], 2);
    assert SanEntries(sans, 1) == SanEntries(sans[1..], 2);
  }
}
