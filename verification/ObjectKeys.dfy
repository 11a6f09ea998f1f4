/** The names of the objects in the durable store (`put_envelope` and `read_objects` in log.rs). */
module ObjectKeys {
  import opened Text
  import opened Envelopes

  const TIP_KEY := "tip.json"

  /** One more row than a 64-bit `usize` can count. */
  const USIZE_LIMIT := 0x1_0000_0000_0000_0000

  function Digit(d: nat): char
    requires d < 10
  {
    "0123456789"[d]
  }

  function Pow10(k: nat): nat
  {
    if k == 0 then 1 else 10 * Pow10(k - 1)
  }

  /** `n` in exactly `k` decimal digits. */
  function Fixed(n: nat, k: nat): (s: string)
    ensures |s| == k
  {
    if k == 0 then "" else Fixed(n / 10, k - 1) + [Digit(n % 10)]
  }

  /** The object name below the prefix: `{seq:020}_{action_id}.json`. */
  function KeyText(seqNo: nat, id: Uuid): string
  {
    Fixed(seqNo, 20) + ("_" + id.text + ".json")
  }

  predicate EndsWith(s: string, suffix: string)
  {
    |suffix| <= |s| && s[|s| - |suffix|..] == suffix
  }

  /** The listing filter: an envelope object, neither the tip nor anything that is not JSON. */
  predicate IsEnvelopeKey(loc: string)
  {
    !EndsWith(loc, "tip.json") && EndsWith(loc, ".json")
  }

  lemma {:induction false} BelowExtends(a: string, b: string, x: string, y: string)
    requires |a| == |b| && Below(a, b)
    ensures Below(a + x, b + y)
  {
    if a[0] == b[0] {
      BelowExtends(a[1..], b[1..], x, y);
      assert (a + x)[1..] == a[1..] + x && (b + y)[1..] == b[1..] + y;
    }
  }

  lemma {:induction false} FixedOrder(m: nat, n: nat, k: nat)
    requires m < n < Pow10(k)
    ensures Below(Fixed(m, k), Fixed(n, k))
  {
    if k > 0 {
      if m / 10 < n / 10 {
        FixedOrder(m / 10, n / 10, k - 1);
        BelowExtends(Fixed(m / 10, k - 1), Fixed(n / 10, k - 1), [Digit(m % 10)], [Digit(n % 10)]);
      } else {
        assert m / 10 == n / 10 && m % 10 < n % 10;
        BelowAfterPrefix(Fixed(m / 10, k - 1), [Digit(m % 10)], [Digit(n % 10)]);
      }
    }
  }

  lemma UsizeFits()
    ensures USIZE_LIMIT <= Pow10(20)
  {
    assert Pow10(5) == 100000;
    assert Pow10(10) == 10 * 10 * 10 * 10 * 10 * Pow10(5);
    assert Pow10(15) == 10 * 10 * 10 * 10 * 10 * Pow10(10);
    assert Pow10(20) == 10 * 10 * 10 * 10 * 10 * Pow10(15);
  }

  /** Names sort in the order of their sequence numbers, whatever the ids. */
  lemma KeyOrder(m: nat, n: nat, a: Uuid, b: Uuid)
    requires m < n < USIZE_LIMIT
    ensures Below(KeyText(m, a), KeyText(n, b))
  {
    UsizeFits();
    FixedOrder(m, n, 20);
    BelowExtends(Fixed(m, 20), Fixed(n, 20), "_" + a.text + ".json", "_" + b.text + ".json");
  }

  /** Every envelope name passes the filter, and `tip.json` does not. */
  lemma KeyPassesFilter(n: nat, id: Uuid)
    requires IsUuid(id)
    ensures IsEnvelopeKey(KeyText(n, id))
    ensures !IsEnvelopeKey(TIP_KEY)
    ensures KeyText(n, id) != TIP_KEY
  {
    var k := KeyText(n, id);
    assert |k| == 20 + 1 + 36 + 5;
    assert k[|k| - 5..] == ".json";
    assert k[|k| - 6] == id.text[35];
    assert k[|k| - 8..][2] == id.text[35] && "tip.json"[2] == 'p';
  }
}
