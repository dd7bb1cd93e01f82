/** The numeric collaborators of the spectral gate that are not modelled in
    detail: the kiss_fftr real transform pair, `sqrtf`, the cosine formula of
    the Hann window and the `powf` behind the decibel-to-gain conversion.
    They are handed to the engine as a bundle of functions, and `Valid`
    states the only facts the engine relies on. */
module Numerics {

  /** One frequency bin (kiss_fft_cpx). */
  datatype Cpx = Cpx(re: real, im: real)

  /** `n` zero samples. */
  function Zeros(n: nat): seq<real>
  {
    seq(n, _ => 0.0)
  }

  /** `n` zero bins. */
  function ZeroBins(n: nat): seq<Cpx>
  {
    seq(n, _ => Cpx(0.0, 0.0))
  }

  datatype Dsp = Dsp(
    fwd: seq<real> -> seq<Cpx>,        // kiss_fftr: N real samples to N/2+1 bins
    inv: (nat, seq<Cpx>) -> seq<real>, // kiss_fftri of size N: bins to N real samples
    sqrt: real -> real,                // sqrtf
    hann: (nat, nat) -> real,          // window value at index i for a window of the given length
    dbToGain: real -> real)            // powf(10, db / 20)
  {
    /** What the engine assumes of its collaborators: transform lengths and
        a positive linear gain. */
    ghost predicate Valid()
    {
      && (forall x: seq<real> :: |fwd(x)| == |x| / 2 + 1)
      && (forall n: nat, c: seq<Cpx> :: |inv(n, c)| == n)
      && (forall db: real :: 0.0 < dbToGain(db))
    }

    /** An exact non-negative square root; only the bounds on the noise
        estimate need it. */
    ghost predicate ExactSqrt()
    {
      forall x: real :: 0.0 <= x ==> 0.0 <= sqrt(x) && sqrt(x) * sqrt(x) == x
    }

    /** Both transforms are linear, so they map silence to silence; only
        the lemma about silent input needs this, and only at size `n`. */
    ghost predicate SilentAt(n: nat)
    {
      fwd(Zeros(n)) == ZeroBins(n / 2 + 1) && inv(n, ZeroBins(n / 2 + 1)) == Zeros(n)
    }
  }

  lemma MulAtLeastOne(a: int, c: int)
    requires 1 <= a && 0 < c
    ensures c <= a * c
  {
    assert a * c == (a - 1) * c + c;
  }

  /** Euclidean division is unique: a quotient and a remainder in range are
      the ones `/` and `%` give. */
  lemma DivModUnique(k: int, c: int, q: int, r: int)
    requires 0 < c && 0 <= r < c && k == q * c + r
    ensures k / c == q && k % c == r
  {
    var q0, r0 := k / c, k % c;
    assert k == q0 * c + r0;
    if q > q0 {
      MulAtLeastOne(q - q0, c);
    } else if q < q0 {
      MulAtLeastOne(q0 - q, c);
    }
  }
}
