/**
 * Calls into pandas, numpy and scikit-learn that the model leaves
 * uninterpreted: which rows a seeded sample picks, rolling and sample
 * standard deviations, quantiles, StandardScaler followed by DBSCAN, and
 * StandardScaler followed by cosine similarity.
 */
module Foreign {
  import opened Numeric

  /** `sel` names k distinct positions among n rows. */
  predicate IsSelection(sel: seq<nat>, n: nat, k: nat)
  {
    && |sel| == k
    && (forall i :: 0 <= i < k ==> sel[i] < n)
    && (forall i, j :: 0 <= i < j < k ==> sel[i] != sel[j])
  }

  datatype Lib = Lib(
    /** Positions that `DataFrame.sample(k, random_state=42)` picks out of n rows. */
    sample: (nat, nat) -> seq<nat>,
    /** `Speed.rolling(10, min_periods=1).std()` at one position, before `fillna`. */
    rollingStd: (seq<Num>, nat) -> Num,
    /** `Series.std()` with one degree of freedom removed (NaN for one row). */
    std: seq<real> -> Num,
    /** `Series.quantile(q)` with linear interpolation. */
    quantile: (seq<real>, real) -> real,
    /** Label that StandardScaler + `DBSCAN(eps, min_samples)` give one row of a matrix. */
    dbscan: (seq<seq<real>>, real, int, nat) -> int,
    /** Entry (i, j) of `cosine_similarity` over the standardised matrix. */
    cosine: (seq<seq<real>>, nat, nat) -> real
  )
  {
    /** A seeded sample without replacement picks k distinct rows whenever k <= n. */
    ghost predicate Valid()
    {
      forall n: nat, k: nat :: k <= n ==> IsSelection(sample(n, k), n, k)
    }
  }
}
