/** Small shared vocabulary: optional values, statement outcomes, Postgres `int` width, and a list fact. */
module Common {

  datatype Option<+T> = None | Some(value: T)

  /** Why a transaction was rolled back. */
  datatype Error =
    | CheckViolation      // a CHECK constraint refused a row
    | OutOfRange          // a value did not fit a 32-bit `int` column
    | ForeignKey          // a referenced row does not exist, or is still referenced
    | RestrictViolation   // a guarding trigger refused the statement
    | OutOfStock          // the application's name for a refused reservation, or for an expired cart
    | NotFound            // KeyError in the admin repository
    | IllegalTransition   // ValueError in the production board

  datatype Result<+T> = Ok(value: T) | Err(error: Error)

  const INT4_MAX: int := 0x7fff_ffff

  predicate Int4(x: int) {
    -INT4_MAX - 1 <= x <= INT4_MAX
  }

  /** Multiplication by a sign in {-1, 0, 1}, written without a product. */
  function Scale(sign: int, n: int): int
    requires -1 <= sign <= 1
  {
    if sign == 1 then n else if sign == -1 then -n else 0
  }

  /** Two lists with the same members: take the first's extra element out of the second. */
  lemma {:induction false} TakeOut<T>(r: T, rest: seq<T>, b: seq<T>) returns (x: seq<T>, y: seq<T>)
    requires multiset(rest) + multiset{r} == multiset(b)
    ensures b == x + [r] + y && multiset(rest) == multiset(x + y)
  {
    assert r in multiset(b);
    var k :| 0 <= k < |b| && b[k] == r;
    x, y := b[..k], b[k + 1..];
    assert b == x + [r] + y;
    assert multiset(x + [r] + y) == multiset(x + y) + multiset{r};
    SameRest(multiset(rest), multiset(x + y), r);
  }

  lemma {:induction false} SameRest<T>(a: multiset<T>, b: multiset<T>, r: T)
    requires a + multiset{r} == b + multiset{r}
    ensures a == b
  {
    assert a == (a + multiset{r}) - multiset{r};
    assert b == (b + multiset{r}) - multiset{r};
  }
}
