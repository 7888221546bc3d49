/**
 * Small shared vocabulary: optional values, results with an error side,
 * the first-match search behind JavaScript's `Array.prototype.find` and
 * `findIndex`, and a model of `crypto.randomUUID` as a counter-indexed
 * family of distinct identifiers.
 */
module Common {

  datatype Option<+T> = None | Some(value: T)

  datatype Result<+T, +E> = Success(value: T) | Failure(error: E)

  /** The index of the first element satisfying `p`, as `find`/`findIndex` report it. */
  function FindFirst<T>(xs: seq<T>, p: T -> bool): (r: Option<nat>)
    ensures r.Some? ==> r.value < |xs| && p(xs[r.value])
    ensures r.Some? ==> forall j :: 0 <= j < r.value ==> !p(xs[j])
    ensures r.None? <==> forall j :: 0 <= j < |xs| ==> !p(xs[j])
  {
    if xs == [] then None
    else if p(xs[0]) then Some(0)
    else match FindFirst(xs[1..], p)
      case None => None
      case Some(k) => Some(k + 1)
  }

  /** The first match is unique: any index that satisfies `p` with no earlier match is the one found. */
  lemma FindFirstAt<T>(xs: seq<T>, p: T -> bool, i: nat)
    requires i < |xs| && p(xs[i])
    requires forall j :: 0 <= j < i ==> !p(xs[j])
    ensures FindFirst(xs, p) == Some(i)
  {
  }

  function DigitChar(d: nat): (c: char)
    requires d < 10
    ensures '0' <= c <= '9'
  {
    ['0', '1', '2', '3', '4', '5', '6', '7', '8', '9'][d]
  }

  /** Decimal notation of a natural number, most significant digit first. */
  function DecimalDigits(n: nat): (s: string)
    ensures |s| >= 1
    ensures n < 10 <==> |s| == 1
    decreases n
  {
    if n < 10 then [DigitChar(n)] else DecimalDigits(n / 10) + [DigitChar(n % 10)]
  }

  lemma DigitCharInjective(a: nat, b: nat)
    requires a < 10 && b < 10
    ensures DigitChar(a) == DigitChar(b) ==> a == b
  {
  }

  lemma {:induction false} DecimalDigitsInjective(a: nat, b: nat)
    ensures DecimalDigits(a) == DecimalDigits(b) ==> a == b
    decreases a
  {
    if DecimalDigits(a) == DecimalDigits(b) {
      if a < 10 {
        assert b < 10;
        DigitCharInjective(a, b);
      } else {
        var da, db := DecimalDigits(a), DecimalDigits(b);
        assert b >= 10;
        assert da[|da| - 1] == db[|db| - 1];
        DigitCharInjective(a % 10, b % 10);
        assert da[..|da| - 1] == DecimalDigits(a / 10);
        assert db[..|db| - 1] == DecimalDigits(b / 10);
        DecimalDigitsInjective(a / 10, b / 10);
      }
    }
  }

  /** The n-th identifier drawn from the UUID generator. */
  function Uuid(n: nat): (id: string)
    ensures |id| > 5
  {
    "uuid-" + DecimalDigits(n)
  }

  /** Distinct draws give distinct identifiers, which is all the model needs of randomUUID. */
  lemma UuidInjective(a: nat, b: nat)
    ensures Uuid(a) == Uuid(b) ==> a == b
  {
    if Uuid(a) == Uuid(b) {
      assert Uuid(a)[5..] == DecimalDigits(a);
      assert Uuid(b)[5..] == DecimalDigits(b);
      DecimalDigitsInjective(a, b);
    }
  }

  /** The identifiers drawn so far when `n` draws have been made. */
  ghost function IssuedIds(n: nat): set<string>
  {
    set k | 0 <= k < n :: Uuid(k)
  }

  lemma NextUuidIsFresh(n: nat)
    ensures Uuid(n) !in IssuedIds(n)
  {
    if Uuid(n) in IssuedIds(n) {
      var k :| 0 <= k < n && Uuid(k) == Uuid(n);
      UuidInjective(k, n);
    }
  }

  lemma IssuedIdsGrow(n: nat, m: nat)
    requires n <= m
    ensures IssuedIds(n) <= IssuedIds(m)
  {
  }
}
