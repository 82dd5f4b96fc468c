/** The five-star rating rows drawn by the form, the detail view and the cards. */
module Stars {
  /** The five stars, star `i` (0-based) filled when `i < rating`: the card's `i < rating`,
      and the form's and detail view's `star <= rating` for stars numbered from 1. */
  function StarRow(rating: int): (row: seq<bool>)
    ensures |row| == 5
  {
    seq(5, i requires 0 <= i < 5 => i < rating)
  }

  /** The number of filled stars. */
  function FilledCount(row: seq<bool>): nat {
    if row == [] then 0 else (if row[0] then 1 else 0) + FilledCount(row[1..])
  }

  /** A rating in 0..5 fills exactly that many stars, the first ones; a larger
      rating fills all five, and a rating below 1 none. */
  lemma {:induction false} StarRowMeaning(rating: int)
    ensures 0 <= rating <= 5 ==> FilledCount(StarRow(rating)) == rating
    ensures rating > 5 ==> FilledCount(StarRow(rating)) == 5
    ensures rating < 1 ==> FilledCount(StarRow(rating)) == 0
    ensures forall i, j :: 0 <= i < j < 5 && StarRow(rating)[j] ==> StarRow(rating)[i]
  {
    var row := StarRow(rating);
    PrefixCount(row, if rating < 0 then 0 else if rating > 5 then 5 else rating);
  }

  /** A row whose first `k` stars are filled and the rest empty has `k` filled stars. */
  lemma {:induction false} PrefixCount(row: seq<bool>, k: nat)
    requires k <= |row|
    requires forall i :: 0 <= i < |row| ==> (row[i] <==> i < k)
    ensures FilledCount(row) == k
  {
    if row != [] {
      var k' := if k == 0 then 0 else k - 1;
      assert forall i :: 0 <= i < |row[1..]| ==> (row[1..][i] <==> i < k') by {
        forall i | 0 <= i < |row[1..]|
          ensures row[1..][i] <==> i < k'
        {
          assert row[1..][i] == row[i + 1];
        }
      }
      PrefixCount(row[1..], k');
    }
  }
}
