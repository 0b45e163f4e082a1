/** Swatches as the palette library reports them, and the choice of the
    most popular one: a scan that keeps the current best and replaces it
    only on a strictly larger population, so the first swatch of maximal
    population wins. */
module Palettes {

  /** Stands for a nullable reference (`Palette?`, `Palette.Swatch?`). */
  datatype Option<+T> = None | Some(value: T)

  /** A representative colour of the analysed region (`rgb`, a packed ARGB
      integer) and the number of pixels it stands for (`population`). */
  datatype Swatch = Swatch(rgb: int, population: int)

  /** What a generated palette exposes to the core: its list of swatches,
      in the library's order. */
  datatype Palette = Palette(swatches: seq<Swatch>)

  /** Swatch `k` is the most popular among the first `n` swatches of `s`,
      and no earlier swatch is as popular. */
  ghost predicate FirstMostPopularUpTo(s: seq<Swatch>, n: nat, k: nat)
  {
    && k < n <= |s|
    && (forall j :: 0 <= j < n ==> s[j].population <= s[k].population)
    && (forall j :: 0 <= j < k ==> s[j].population < s[k].population)
  }

  /** Swatch `k` is the first swatch of `s` whose population is maximal. */
  ghost predicate IsFirstMostPopular(s: seq<Swatch>, k: nat)
  {
    FirstMostPopularUpTo(s, |s|, k)
  }

  /** At most one index of a prefix is the first most popular one. */
  lemma FirstMostPopularUnique(s: seq<Swatch>, n: nat, i: nat, k: nat)
    requires FirstMostPopularUpTo(s, n, i) && FirstMostPopularUpTo(s, n, k)
    ensures i == k
  {
    // both are maximal, so they tie, and a tie rules out either coming first
    assert s[i].population == s[k].population;
  }

  /** Reference definition, independent of the scan: the index of the first
      most popular swatch, computed from the back of the list (the head wins
      unless the rest holds a strictly more popular swatch). `None` for an
      empty list. */
  function MostPopularIndex(s: seq<Swatch>): (r: Option<nat>)
    ensures r.None? <==> s == []
    ensures r.Some? ==> IsFirstMostPopular(s, r.value)
    decreases |s|
  {
    if s == [] then None
    else match MostPopularIndex(s[1..])
      case None => Some(0)
      case Some(k) =>
        if s[0].population >= s[k + 1].population then Some(0) else Some(k + 1)
  }

  /** The most popular swatch of `s`, the first one on a tie; `None` exactly
      when `s` is empty. */
  function MostPopular(s: seq<Swatch>): (r: Option<Swatch>)
    ensures r.None? <==> s == []
    ensures r.Some? ==> forall j :: 0 <= j < |s| ==> s[j].population <= r.value.population
    ensures r.Some? ==> exists k :: 0 <= k < |s| && s[k] == r.value &&
                                    forall j :: 0 <= j < k ==> s[j].population < r.value.population
  {
    match MostPopularIndex(s)
    case None => None
    case Some(k) => Some(s[k])
  }

  /** `MostPopular` picks exactly the swatch at the first index of maximal
      population, whatever index that is. */
  lemma MostPopularIsFirstMax(s: seq<Swatch>, k: nat)
    requires IsFirstMostPopular(s, k)
    ensures MostPopular(s) == Some(s[k])
  {
    FirstMostPopularUnique(s, |s|, MostPopularIndex(s).value, k);
  }

  /** Two swatches of equal population: the first one in list order wins. */
  lemma TieGoesToFirst(a: Swatch, b: Swatch)
    requires a.population == b.population
    ensures MostPopular([a, b]) == Some(a)
  {
    assert IsFirstMostPopular([a, b], 0);
    MostPopularIsFirstMax([a, b], 0);
  }

  /** The scan of `detectBitmapColor`: start with no swatch and take each
      swatch that is the first one or strictly more popular than the best
      so far. */
  method SelectMostPopularSwatch(swatches: seq<Swatch>) returns (mostPopular: Option<Swatch>)
    ensures mostPopular.None? <==> swatches == []
    ensures mostPopular.Some? ==> exists k: nat :: IsFirstMostPopular(swatches, k) && swatches[k] == mostPopular.value
    ensures mostPopular == MostPopular(swatches)
  {
    mostPopular := None;
    ghost var best: nat := 0;
    for i := 0 to |swatches|
      invariant mostPopular.None? <==> i == 0
      invariant mostPopular.Some? ==> FirstMostPopularUpTo(swatches, i, best) && mostPopular.value == swatches[best]
    {
      var swatch := swatches[i];
      if mostPopular.None? || swatch.population > mostPopular.value.population {
        mostPopular := Some(swatch);
        best := i;
      }
    }
    if mostPopular.Some? {
      MostPopularIsFirstMax(swatches, best);
    }
  }
}
