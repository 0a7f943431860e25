/** Counted `for` loops and the `untilStep` lists that they are translated to. */
module CountedLoop {
  import opened Wrappers

  datatype Cmp = Lt | Le | Gt | Ge

  /** `i++`, `i--`, `i += k`, `i -= k` with a literal k. */
  datatype Post = Inc | Dec | Add(k: nat) | Sub(k: nat)

  predicate Test(cmp: Cmp, i: int, bound: int) {
    match cmp
    case Lt => i < bound
    case Le => i <= bound
    case Gt => i > bound
    case Ge => i >= bound
  }

  predicate Up(cmp: Cmp) {
    cmp.Lt? || cmp.Le?
  }

  function Step(post: Post): int {
    match post
    case Inc => 1
    case Dec => -1
    case Add(k) => k
    case Sub(k) => 0 - k
  }

  function Abs(n: int): nat {
    if n < 0 then -n else n
  }

  /** The values of the loop variable for which Go runs the body; None when the loop does not end. */
  function GoValues(cmp: Cmp, step: int, i: int, bound: int): Option<seq<int>>
    decreases if Test(cmp, i, bound) then 1 + Abs(bound - i) else 0
  {
    if !Test(cmp, i, bound) then Some([])
    else if if Up(cmp) then step <= 0 else step >= 0 then None
    else
      match GoValues(cmp, step, i + step, bound)
      case None => None
      case Some(more) => Some([i] + more)
  }

  /** Counting from `i` towards `stop`, which is not reached. */
  function Count(i: int, stop: int, step: int): seq<int>
    decreases Abs(stop - i)
  {
    if step > 0 && i < stop then [i] + (if i + step < stop then Count(i + step, stop, step) else [])
    else if step < 0 && i > stop then [i] + (if i + step > stop then Count(i + step, stop, step) else [])
    else []
  }

  /** Sprig's untilStep: empty when the step leads away from the stop. */
  function UntilStep(start: int, stop: int, step: int): seq<int> {
    if stop < start then if step >= 0 then [] else Count(start, stop, step)
    else if step <= 0 then [] else Count(start, stop, step)
  }

  /** The emitted list.  For `>` and `>=` the translation takes the bound for the start and the initial value for the
      stop; a `-=` swaps the two. */
  function Emitted(cmp: Cmp, post: Post, init: int, bound: int): seq<int> {
    var start := if Up(cmp) then init else bound;
    var stop := if Up(cmp) then bound else init;
    if post.Sub? then UntilStep(stop, start, 0 - post.k) else UntilStep(start, stop, Step(post))
  }

  /** Where the two agree.  `<` with `++` or `+=` and `>` with `-=` always do.  `<=` and `>=` lose the bound when the
      steps meet it; a loop that counts away from its bound agrees only when it does not run; and `--` is not swapped,
      so it agrees only when there is nothing to do from either side. */
  predicate Agrees(cmp: Cmp, post: Post, init: int, bound: int) {
    match (cmp, post)
    case (Lt, Dec) => init == bound
    case (Gt, Dec) => init == bound
    case (Le, Dec) => false
    case (Ge, Dec) => false
    case (Lt, Sub(_)) => init >= bound
    case (Le, Sub(_)) => init > bound
    case (Gt, Sub(k)) => k > 0 || init <= bound
    case (Ge, Sub(k)) => init < bound || (k > 0 && !Meets(init, bound, 0 - k))
    case (Lt, _) => Step(post) > 0 || init >= bound
    case (Le, _) => init > bound || (Step(post) > 0 && !Meets(init, bound, Step(post)))
    case (Gt, _) => init <= bound
    case (Ge, _) => init < bound
  }

  /** A strict comparison and a step towards the bound. */
  lemma {:induction false} StrictLoop(cmp: Cmp, step: int, i: int, bound: int)
    requires (cmp.Lt? && step > 0) || (cmp.Gt? && step < 0)
    ensures GoValues(cmp, step, i, bound) == Some(Count(i, bound, step))
    decreases if Test(cmp, i, bound) then 1 + Abs(bound - i) else 0
  {
    if Test(cmp, i, bound) {
      StrictLoop(cmp, step, i + step, bound);
    }
  }

  /** The steps from `i` meet the bound. */
  predicate Meets(i: int, bound: int, step: int)
    requires step != 0
  {
    (if step > 0 then i <= bound else i >= bound) && Abs(bound - i) % Abs(step) == 0
  }

  /** A comparison that allows the bound runs once more when the steps meet it. */
  lemma {:induction false} WeakLoop(cmp: Cmp, step: int, i: int, bound: int)
    requires (cmp.Le? && step > 0) || (cmp.Ge? && step < 0)
    ensures GoValues(cmp, step, i, bound) == Some(Count(i, bound, step) + if Meets(i, bound, step) then [bound] else [])
    decreases if Test(cmp, i, bound) then 1 + Abs(bound - i) else 0
  {
    if Test(cmp, i, bound) {
      WeakLoop(cmp, step, i + step, bound);
      MeetsStep(i, bound, step);
      var tail := if Meets(i + step, bound, step) then [bound] else [];
      var more := Count(i + step, bound, step);
      assert GoValues(cmp, step, i, bound) == Some([i] + (more + tail));
      if i == bound {
        assert more == [] && tail == [] && Count(i, bound, step) == [];
        assert [i] + (more + tail) == Count(i, bound, step) + [bound];
      } else {
        assert Count(i, bound, step) == [i] + more;
        assert [i] + (more + tail) == [i] + more + tail;
      }
    } else {
      assert Count(i, bound, step) + [] == [];
    }
  }

  lemma {:induction false} MeetsStep(i: int, bound: int, step: int)
    requires step != 0 && if step > 0 then i <= bound else i >= bound
    ensures Meets(i, bound, step) <==> i == bound || Meets(i + step, bound, step)
    ensures i == bound ==> !Meets(i + step, bound, step)
  {
    var n, d := Abs(bound - i), Abs(step);
    if n >= d { LessOne(n, d); }
  }

  lemma {:induction false} LessOne(n: nat, d: nat)
    requires d > 0 && n >= d
    ensures n % d == (n - d) % d
  {
    var q, r := n / d, n % d;
    assert n == q * d + r;
    assert n - d == (q - 1) * d + r;
    SameQuotient((n - d) / d, (n - d) % d, q - 1, r, d);
  }

  lemma {:induction false} SameQuotient(a: int, r: int, b: int, s: int, d: int)
    requires 0 <= r < d && 0 <= s < d && a * d + r == b * d + s
    ensures a == b && r == s
  {
    assert (a - b) * d == s - r;
    assert (b - a) * d == r - s;
    if a > b { AtLeast(a - b, d); } else if a < b { AtLeast(b - a, d); }
  }

  lemma {:induction false} AtLeast(p: int, d: int)
    requires p >= 1 && d >= 1
    ensures p * d >= d
  {
  }

  lemma {:induction false} CountHead(i: int, stop: int, step: int)
    ensures Count(i, stop, step) == [] <==> !((step > 0 && i < stop) || (step < 0 && i > stop))
    ensures UntilStep(i, stop, step) == Count(i, stop, step)
  {
  }

  /** A loop that steps towards its bound, swapped where the translation swaps. */
  lemma {:induction false} Towards(cmp: Cmp, post: Post, init: int, bound: int)
    requires if Up(cmp) then Step(post) > 0 else Step(post) < 0 && post.Sub?
    ensures GoValues(cmp, Step(post), init, bound) == Some(Emitted(cmp, post, init, bound)) <==> Agrees(cmp, post, init, bound)
  {
    hide Count, UntilStep, GoValues, Meets;
    var step := Step(post);
    CountHead(init, bound, step);
    if cmp.Lt? || cmp.Gt? {
      StrictLoop(cmp, step, init, bound);
    } else {
      WeakLoop(cmp, step, init, bound);
      assert Meets(init, bound, step) ==> |Count(init, bound, step) + [bound]| == |Count(init, bound, step)| + 1;
      assert Count(init, bound, step) + [] == Count(init, bound, step);
      NotMet(init, bound, step);
    }
  }

  lemma {:induction false} NotMet(i: int, bound: int, step: int)
    requires step != 0
    ensures Meets(i, bound, step) ==> if step > 0 then i <= bound else i >= bound
  {
  }

  lemma {:induction false} FirstTest(cmp: Cmp, step: int, i: int, bound: int)
    ensures !Test(cmp, i, bound) ==> GoValues(cmp, step, i, bound) == Some([])
    ensures Test(cmp, i, bound) && (if Up(cmp) then step <= 0 else step >= 0) ==> GoValues(cmp, step, i, bound) == None
    ensures Test(cmp, i, bound) && GoValues(cmp, step, i, bound).Some? ==> GoValues(cmp, step, i, bound).value != []
  {
  }

  /** For every start, bound and literal step, the emitted list runs the body as Go does exactly in these cases. */
  lemma {:induction false} CountedLoopIff(cmp: Cmp, post: Post, init: int, bound: int)
    ensures GoValues(cmp, Step(post), init, bound) == Some(Emitted(cmp, post, init, bound)) <==> Agrees(cmp, post, init, bound)
  {
    if if Up(cmp) then Step(post) > 0 else Step(post) < 0 && post.Sub? {
      Towards(cmp, post, init, bound);
    } else {
      hide Count, UntilStep, GoValues, Meets;
      FirstTest(cmp, Step(post), init, bound);
      CountHead(bound, init, Step(post));
      CountHead(init, bound, Step(post));
    }
  }
}
