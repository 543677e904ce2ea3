// The PLCP LENGTH field that RTMPWriteTxDescriptor computes (Module/rtmp_data.c),
// against the decoding rule of section 18.2.3.5 of IEEE 802.11b-1999.
module Plcp {
  import opened Modular

  const RATE_1: nat := 0
  const RATE_2: nat := 1
  const RATE_5_5: nat := 2
  const RATE_11: nat := 3
  const RATE_FIRST_OFDM_RATE: nat := 4
  const LENGTH_CRC: nat := 4

  datatype Cipher = None | Wep64 | Wep128 | Tkip | Aes | Ckip64 | Ckip128 | TkipNoMic

  datatype Fields = Fields(high: nat, low: nat, extension: bool)

  /** Where the length is split: eight low-order bits at the CCK rates, six at OFDM rates. */
  function Half(rate: nat): nat {
    if rate < RATE_FIRST_OFDM_RATE then 0x100 else 0x40
  }

  /** The descriptor has eight bits for either half. */
  const EIGHT_BITS: nat := 0x100

  /** The field as the hardware joins it again. */
  function Field(rate: nat, f: Fields): nat {
    f.high * Half(rate) + f.low
  }

  /** The rate in units of half a megabit. */
  function HalfMegabits(rate: nat): nat {
    if rate == RATE_1 then 2 else if rate == RATE_2 then 4 else if rate == RATE_5_5 then 11 else 22
  }

  /**
   * The receiver's octet count: LENGTH microseconds at the rate, rounded down,
   * less one if the extension bit is set; at OFDM rates LENGTH is the count.
   */
  function Octets(rate: nat, f: Fields): int {
    if rate < RATE_FIRST_OFDM_RATE
    then Field(rate, f) * HalfMegabits(rate) / 16 - (if f.extension then 1 else 0)
    else Field(rate, f)
  }

  /** The microseconds n octets take, rounded up. */
  function Microseconds(rate: nat, n: nat): nat {
    (16 * n + HalfMegabits(rate) - 1) / HalfMegabits(rate)
  }

  /** What has to fit the field. */
  function Needed(rate: nat, n: nat): nat {
    if rate < RATE_FIRST_OFDM_RATE then Microseconds(rate, n) else n
  }

  predicate Fits(rate: nat, n: nat) {
    Needed(rate, n) < EIGHT_BITS * Half(rate)
  }

  /**
   * Computes LENGTH and the extension bit for a frame, its CRC and what its cipher
   * adds included. Joined again, the two
   * halves give the exact octet count if and only if the value fits the descriptor.
   * The LENGTH field on the air has twelve bits at OFDM rates (section 17.3.4 of
   * IEEE 802.11a-1999); the high half keeps to its six of them up to 4095 octets.
   */
  method WriteLength(rate: nat, len: nat, cipher: Cipher) returns (f: Fields)
    requires rate < 12
    ensures f.high < EIGHT_BITS && f.low < Half(rate)
    ensures var n := len + 4 + (match cipher case None => 0 case Tkip => 20 case Aes => 16 case TkipNoMic => 12 case _ => 8);
            && (Octets(rate, f) == n <==> Fits(rate, n))
            && (rate >= RATE_FIRST_OFDM_RATE && Fits(rate, n) ==> (f.high < 0x40 <==> n < 0x1000))
  {
    var length := len + LENGTH_CRC;
    match cipher {
      case Wep64 => length := length + 8;
      case Wep128 => length := length + 8;
      case Tkip => length := length + 20;
      case Aes => length := length + 16;
      case Ckip64 => length := length + 8;
      case Ckip128 => length := length + 8;
      case TkipNoMic => length := length + 12;
      case None =>
    }
    f := LengthField(rate, length);
  }

  method LengthField(rate: nat, n: nat) returns (f: Fields)
    requires rate < 12
    ensures f.high < EIGHT_BITS && f.low < Half(rate)
    ensures Octets(rate, f) == n <==> Fits(rate, n)
    ensures rate >= RATE_FIRST_OFDM_RATE && Fits(rate, n) ==> (f.high < 0x40 <==> n < 0x1000)
  {
    if rate < RATE_FIRST_OFDM_RATE {
      var length, extension := CckLength(rate, n);
      f := Fields(length / 256 % 256, length % 256, extension);
      CckDecodes(rate, n, length, f);
    } else {
      f := Fields(n / 64 % 256, n % 64, false);
      OfdmDecodes(rate, n, f);
    }
  }

  /** The microseconds and the extension bit of a CCK frame. */
  method CckLength(rate: nat, n: nat) returns (length: nat, extension: bool)
    requires rate < RATE_FIRST_OFDM_RATE
    ensures length == Rounded(rate, n) && extension == Extended(rate, n)
  {
    length, extension := n, false;
    if rate == RATE_1 || rate == RATE_2 {
      length := length * 8 / (rate + 1);
    } else {
      var residual := (length * 16) % (11 * (1 + rate - RATE_5_5));
      length := length * 16 / (11 * (1 + rate - RATE_5_5));
      if residual != 0 {
        length := length + 1;
      }
      if residual <= 3 * (1 + rate - RATE_5_5) && residual != 0 {
        if rate == RATE_11 {
          extension := true;
        }
      }
    }
  }

  lemma OfdmDecodes(rate: nat, n: nat, f: Fields)
    requires rate >= RATE_FIRST_OFDM_RATE && f == Fields(n / 64 % 256, n % 64, false)
    ensures Octets(rate, f) == n <==> Fits(rate, n)
  {
    JoinedSix(n);
  }

  /** The extension bit as the code sets it. */
  predicate Extended(rate: nat, n: nat) {
    rate == RATE_11 && 0 < 16 * n % 22 <= 6
  }

  lemma RoundedUp(rate: nat, n: nat, t: nat, ext: bool)
    requires rate < RATE_FIRST_OFDM_RATE && t == Microseconds(rate, n) && ext == Extended(rate, n)
    ensures t * HalfMegabits(rate) / 16 - (if ext then 1 else 0) == n
  {
    if rate == RATE_11 {
      UpAt22(n, t);
    } else {
      UpBelow16(n, t, HalfMegabits(rate));
    }
  }

  /** Rounded up by less than an octet. */
  lemma UpBelow16(n: nat, t: nat, h: nat)
    requires h in {2, 4, 11} && t == (16 * n + h - 1) / h
    ensures t * h / 16 == n
  {
    assert 16 * n <= t * h < 16 * n + h;
  }

  /** At 11 Mbps rounding up may add a whole octet; the extension bit tells. */
  lemma UpAt22(n: nat, t: nat)
    requires t == (16 * n + 21) / 22
    ensures t * 22 / 16 == if 0 < 16 * n % 22 <= 6 then n + 1 else n
  {
    var q, r := 16 * n / 22, 16 * n % 22;
    assert 16 * n == 22 * q + r;
    assert t == if r == 0 then q else q + 1;
    assert t * 22 - 16 * n == if r == 0 then 0 else 22 - r;
  }

  /** LENGTH as the code rounds it. */
  function Rounded(rate: nat, n: nat): nat
    requires rate < RATE_FIRST_OFDM_RATE
  {
    if rate == RATE_1 then 8 * n
    else if rate == RATE_2 then 4 * n
    else if rate == RATE_5_5 then 16 * n / 11 + (if 16 * n % 11 != 0 then 1 else 0)
    else 16 * n / 22 + (if 16 * n % 22 != 0 then 1 else 0)
  }

  lemma RoundedIs(rate: nat, n: nat)
    requires rate < RATE_FIRST_OFDM_RATE
    ensures Rounded(rate, n) == Microseconds(rate, n)
  {
  }

  lemma JoinedSix(n: nat)
    ensures n / 64 % 256 * 64 + n % 64 == n % 16384
  {
    var q := n / 64;
    assert n == q * 64 + n % 64;
    assert q == q / 256 * 256 + q % 256;
    DivModUnique(n, 16384, q / 256, q % 256 * 64 + n % 64);
  }

  lemma Joined(t: nat)
    ensures t / 256 % 256 * 256 + t % 256 == t % 65536
  {
    var q := t / 256;
    assert t == q * 256 + t % 256;
    assert q == q / 256 * 256 + q % 256;
    DivModUnique(t, 65536, q / 256, q % 256 * 256 + t % 256);
  }

  /** A value cut down to sixteen bits no longer reaches the count. */
  lemma CutShort(rate: nat, n: nat, t: nat, ext: nat)
    requires rate < RATE_FIRST_OFDM_RATE && ext <= 1 && t >= 65536
    requires t * HalfMegabits(rate) / 16 - ext == n
    ensures t % 65536 * HalfMegabits(rate) / 16 - ext < n
  {
    var h := HalfMegabits(rate);
    assert t % 65536 <= t - 65536;
    assert h in {2, 4, 11, 22};
    assert (t - 65536) * h / 16 == t * h / 16 - 4096 * h;
  }

  lemma CckDecodes(rate: nat, n: nat, t: nat, f: Fields)
    requires rate < RATE_FIRST_OFDM_RATE && t == Rounded(rate, n)
    requires f == Fields(t / 256 % 256, t % 256, Extended(rate, n))
    ensures Octets(rate, f) == n <==> Fits(rate, n)
  {
    var ext := if f.extension then 1 else 0;
    assert Field(rate, f) == t % 65536 by { Joined(t); }
    assert t == Needed(rate, n) by { RoundedIs(rate, n); }
    assert t * HalfMegabits(rate) / 16 - ext == n by {
      RoundedIs(rate, n);
      RoundedUp(rate, n, t, f.extension);
    }
    if t >= 65536 {
      CutShort(rate, n, t, ext);
    } else {
      assert t % 65536 == t;
    }
  }
}
