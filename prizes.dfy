/** The roulette's prize catalog and the display strip built from it
    (the `prizes` array and `duplicatedPrizes` of the roulette screen). */
module Prizes {

  /** One prize: its identity within the catalog, its glyph and its value in stars. */
  datatype Prize = Prize(id: int, icon: string, stars: int)

  /** The fixed eight-entry catalog shown on the roulette screen. */
  function Catalog(): seq<Prize>
  {
    [ Prize(1, "\U{1F3AE}", 1058),
      Prize(2, "\U{1F382}", 286),
      Prize(3, "\U{1F9F8}", 445),
      Prize(4, "\U{1F48E}", 892),
      Prize(5, "\U{1F3AA}", 156),
      Prize(6, "\U{1F3AF}", 723),
      Prize(7, "\U{1F3A8}", 334),
      Prize(8, "\U{1F3AD}", 567) ]
  }

  /** The catalog has eight prizes with distinct ids and positive values. */
  lemma CatalogShape()
    ensures |Catalog()| == 8
    ensures forall i, j :: 0 <= i < j < |Catalog()| ==> Catalog()[i].id != Catalog()[j].id
    ensures forall i :: 0 <= i < |Catalog()| ==> Catalog()[i].stars > 0
  {
  }

  /** The display strip: the catalog three times over, one buffer copy on
      either side of a central copy. */
  function Strip(prizes: seq<Prize>): (strip: seq<Prize>)
    ensures |strip| == 3 * |prizes|
  {
    prizes + prizes + prizes
  }

  /** Euclidean remainder of an index that lies in the q-th copy of a block of length n. */
  lemma {:induction false} ModInCopy(i: int, n: int, q: int)
    requires n > 0 && 0 <= q
    requires q * n <= i < (q + 1) * n
    ensures i % n == i - q * n
  {
    var q', r' := i / n, i % n;
    assert i == q' * n + r' && 0 <= r' < n;
    if q' < q {
      assert (q - q') * n >= n by { MulAtLeast(q - q', n); }
      assert false;
    } else if q' > q {
      assert (q' - q) * n >= n by { MulAtLeast(q' - q, n); }
      assert false;
    }
  }

  lemma MulAtLeast(a: int, n: int)
    requires a >= 1 && n > 0
    ensures a * n >= n
  {
  }

  /** Every strip cell shows the catalog entry at its index modulo the catalog length. */
  lemma {:induction false} StripAt(prizes: seq<Prize>, i: int)
    requires 0 <= i < |Strip(prizes)|
    ensures Strip(prizes)[i] == prizes[i % |prizes|]
  {
    var n := |prizes|;
    if i < n {
      ModInCopy(i, n, 0);
    } else if i < 2 * n {
      ModInCopy(i, n, 1);
    } else {
      ModInCopy(i, n, 2);
    }
  }

  /** Each of the three copies in the strip is the catalog itself. */
  lemma StripCopies(prizes: seq<Prize>)
    ensures var n := |prizes|;
      Strip(prizes)[..n] == prizes && Strip(prizes)[n..2 * n] == prizes && Strip(prizes)[2 * n..] == prizes
  {
  }
}
