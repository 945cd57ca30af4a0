/** Rank metrics over duplicate-free rankings (`_case_result`, evaluation.py), with `real` for floats:
    reciprocal rank, recall and average precision. */
module Ranking {
  import opened Common

  // ----- definitions

  /** The relevant items among the first `n` ranks. */
  function Seen<T(==)>(ranked: seq<T>, relevant: set<T>, n: nat): nat
    requires n <= |ranked|
  {
    if n == 0 then 0 else Seen(ranked, relevant, n - 1) + if ranked[n - 1] in relevant then 1 else 0
  }

  function Ratio(a: nat, b: nat): real
    requires b > 0
  {
    a as real / b as real
  }

  /** Precision at every relevant rank, summed. */
  function PrecisionSum<T(==)>(ranked: seq<T>, relevant: set<T>, n: nat): real
    requires n <= |ranked|
  {
    if n == 0 then 0.0
    else
      PrecisionSum(ranked, relevant, n - 1)
      + if ranked[n - 1] in relevant then Ratio(Seen(ranked, relevant, n), n) else 0.0
  }

  function AveragePrecision<T(==)>(ranked: seq<T>, relevant: set<T>): real
    requires relevant != {}
  {
    PrecisionSum(ranked, relevant, |ranked|) / |relevant| as real
  }

  function Recall<T(==)>(ranked: seq<T>, relevant: set<T>): real
    requires relevant != {}
  {
    Ratio(|relevant * Elements(ranked)|, |relevant|)
  }

  /** One over the first relevant rank, counting from one; zero without one. */
  function ReciprocalRank<T(==)>(ranked: seq<T>, relevant: set<T>, from: nat): real
    requires from <= |ranked|
    decreases |ranked| - from
  {
    if from == |ranked| then 0.0
    else if ranked[from] in relevant then Ratio(1, from + 1)
    else ReciprocalRank(ranked, relevant, from + 1)
  }

  // ----- ratios

  lemma RatioBounds(a: nat, b: nat)
    requires 0 < b && a <= b
    ensures 0.0 <= Ratio(a, b) <= 1.0
    ensures Ratio(a, b) == 1.0 <==> a == b
    ensures Ratio(a, b) > 0.0 <==> a > 0
  {
    DivisionOrder(0.0, a as real, b as real);
    DivisionOrder(a as real, b as real, b as real);
    QuotientOne(b as real, b as real);
    QuotientOne(a as real, b as real);
  }

  lemma RatioSmaller(a: nat, b: nat, c: nat)
    requires 0 < a && 0 < b < c
    ensures Ratio(a, c) < Ratio(a, b)
  {
    var x, y, z := a as real, b as real, c as real;
    var p, q := x / y, x / z;
    assert p * y == x && q * z == x;
    if p <= q {
      assert q * z > q * y by { assert q > 0.0; }
      assert q * y >= p * y;
    }
  }

  lemma DivisionOrder(x: real, y: real, d: real)
    requires d > 0.0
    ensures x <= y <==> x / d <= y / d
    ensures x < y <==> x / d < y / d
  {
    var p, q := x / d, y / d;
    assert p * d == x && q * d == y;
    if p <= q { assert p * d <= q * d; }
    if p < q { assert p * d < q * d; }
    if q < p { assert q * d < p * d; }
  }

  // ----- counting

  lemma MeetSnoc<T>(relevant: set<T>, prefix: set<T>, x: T)
    requires x !in prefix
    ensures |relevant * (prefix + {x})| == |relevant * prefix| + if x in relevant then 1 else 0
  {
    if x in relevant {
      assert relevant * (prefix + {x}) == relevant * prefix + {x};
    } else {
      assert relevant * (prefix + {x}) == relevant * prefix;
    }
  }

  lemma NextRank<T>(ranked: seq<T>, n: nat)
    requires Distinct(ranked) && n < |ranked|
    ensures Elements(ranked[..n + 1]) == Elements(ranked[..n]) + {ranked[n]} && ranked[n] !in Elements(ranked[..n])
  {
    assert ranked[..n + 1] == ranked[..n] + [ranked[n]];
    ElementsSnoc(ranked[..n], ranked[n]);
  }

  /** The ranking loop counts exactly the distinct relevant items of the prefix. */
  lemma MeetNext<T>(ranked: seq<T>, relevant: set<T>, n: nat)
    requires Distinct(ranked) && n < |ranked|
    ensures |relevant * Elements(ranked[..n + 1])|
         == |relevant * Elements(ranked[..n])| + if ranked[n] in relevant then 1 else 0
  {
    NextRank(ranked, n);
    MeetSnoc(relevant, Elements(ranked[..n]), ranked[n]);
  }

  lemma {:induction false} SeenMeaning<T>(ranked: seq<T>, relevant: set<T>, n: nat)
    requires Distinct(ranked) && n <= |ranked|
    ensures Seen(ranked, relevant, n) == |relevant * Elements(ranked[..n])|
  {
    if n == 0 {
      assert relevant * Elements(ranked[..0]) == {};
    } else {
      SeenMeaning(ranked, relevant, n - 1);
      MeetNext(ranked, relevant, n - 1);
    }
  }

  lemma {:induction false} SeenBounds<T>(ranked: seq<T>, relevant: set<T>, n: nat)
    requires n <= |ranked|
    ensures Seen(ranked, relevant, n) <= n
    ensures Seen(ranked, relevant, n) == n <==> forall i | 0 <= i < n :: ranked[i] in relevant
  {
    if n > 0 { SeenBounds(ranked, relevant, n - 1); }
  }

  lemma {:induction false} SeenGrows<T>(ranked: seq<T>, relevant: set<T>, m: nat, n: nat)
    requires m <= n <= |ranked|
    ensures Seen(ranked, relevant, m) <= Seen(ranked, relevant, n)
    ensures (exists i :: m <= i < n && ranked[i] in relevant) ==> Seen(ranked, relevant, m) < Seen(ranked, relevant, n)
  {
    if m < n { SeenGrows(ranked, relevant, m, n - 1); }
  }

  // ----- 0 <= AP <= recall <= 1

  lemma {:induction false} PrecisionBounds<T>(ranked: seq<T>, relevant: set<T>, n: nat)
    requires n <= |ranked|
    ensures 0.0 <= PrecisionSum(ranked, relevant, n) <= Seen(ranked, relevant, n) as real
    ensures PrecisionSum(ranked, relevant, n) > 0.0 <==> Seen(ranked, relevant, n) > 0
  {
    if n > 0 {
      PrecisionBounds(ranked, relevant, n - 1);
      SeenBounds(ranked, relevant, n);
      RatioBounds(Seen(ranked, relevant, n), n);
    }
  }

  lemma WholePrefix<T>(ranked: seq<T>, relevant: set<T>)
    requires Distinct(ranked) && relevant != {}
    ensures Seen(ranked, relevant, |ranked|) == |relevant * Elements(ranked)| <= |relevant|
  {
    SeenMeaning(ranked, relevant, |ranked|);
    assert ranked[..|ranked|] == ranked;
    SubsetCard(relevant * Elements(ranked), relevant);
  }

  lemma MetricsOrdered<T>(ranked: seq<T>, relevant: set<T>)
    requires Distinct(ranked) && relevant != {}
    ensures 0.0 <= AveragePrecision(ranked, relevant) <= Recall(ranked, relevant) <= 1.0
    ensures AveragePrecision(ranked, relevant) > 0.0 <==> Recall(ranked, relevant) > 0.0
    ensures Recall(ranked, relevant) > 0.0 <==> relevant * Elements(ranked) != {}
  {
    var n := |ranked|;
    WholePrefix(ranked, relevant);
    PrecisionBounds(ranked, relevant, n);
    RatioBounds(Seen(ranked, relevant, n), |relevant|);
    var d := |relevant| as real;
    DivisionOrder(0.0, PrecisionSum(ranked, relevant, n), d);
    DivisionOrder(PrecisionSum(ranked, relevant, n), Seen(ranked, relevant, n) as real, d);
    assert 0.0 / d == 0.0;
  }

  lemma {:induction false} ReciprocalBounds<T>(ranked: seq<T>, relevant: set<T>, from: nat)
    requires from <= |ranked|
    ensures 0.0 <= ReciprocalRank(ranked, relevant, from) <= 1.0
    ensures ReciprocalRank(ranked, relevant, from) > 0.0 <==> exists i :: from <= i < |ranked| && ranked[i] in relevant
    decreases |ranked| - from
  {
    if from < |ranked| {
      RatioBounds(1, from + 1);
      ReciprocalBounds(ranked, relevant, from + 1);
    }
  }

  /** The metrics agree on whether anything was found. */
  lemma PositiveTogether<T>(ranked: seq<T>, relevant: set<T>)
    requires Distinct(ranked) && relevant != {}
    ensures ReciprocalRank(ranked, relevant, 0) > 0.0 <==> AveragePrecision(ranked, relevant) > 0.0
    ensures AveragePrecision(ranked, relevant) > 0.0 <==> Recall(ranked, relevant) > 0.0
    ensures Recall(ranked, relevant) > 0.0 <==> exists x :: x in relevant && x in ranked
  {
    MetricsOrdered(ranked, relevant);
    ReciprocalBounds(ranked, relevant, 0);
    if i :| 0 <= i < |ranked| && ranked[i] in relevant {
      assert ranked[i] in relevant * Elements(ranked) && ranked[i] in ranked;
    }
    if x :| x in relevant && x in ranked {
      var i :| 0 <= i < |ranked| && ranked[i] == x;
      assert x in relevant * Elements(ranked);
    }
    if relevant * Elements(ranked) != {} {
      var x :| x in relevant * Elements(ranked);
      assert x in relevant && x in ranked;
    }
  }

  // ----- AP = 1

  lemma {:induction false} PerfectPrefix<T>(ranked: seq<T>, relevant: set<T>, n: nat)
    requires n <= |ranked|
    ensures Seen(ranked, relevant, n) <= n
    ensures PrecisionSum(ranked, relevant, n) == Seen(ranked, relevant, n) as real
      <==> forall i | 0 <= i < Seen(ranked, relevant, n) :: ranked[i] in relevant
  {
    SeenBounds(ranked, relevant, n);
    if n > 0 {
      PerfectPrefix(ranked, relevant, n - 1);
      if ranked[n - 1] in relevant {
        PrecisionBounds(ranked, relevant, n - 1);
        SeenBounds(ranked, relevant, n - 1);
        var k := Seen(ranked, relevant, n);
        RatioBounds(k, n);
        SeenBounds(ranked, relevant, k);
        if k < n { SeenGrows(ranked, relevant, k, n); }
      }
    }
  }

  /** Average precision is one exactly when the first |relevant| ranks are the relevant set. */
  lemma PerfectRanking<T>(ranked: seq<T>, relevant: set<T>)
    requires Distinct(ranked) && relevant != {}
    ensures AveragePrecision(ranked, relevant) == 1.0
      <==> |relevant| <= |ranked| && Elements(ranked[..|relevant|]) == relevant
  {
    var n := |ranked|;
    WholePrefix(ranked, relevant);
    PrecisionBounds(ranked, relevant, n);
    PerfectPrefix(ranked, relevant, n);
    QuotientOne(PrecisionSum(ranked, relevant, n), |relevant| as real);
    if |relevant| <= n && Elements(ranked[..|relevant|]) == relevant {
      PrefixAll(ranked, relevant);
    } else if AveragePrecision(ranked, relevant) == 1.0 {
      PrefixElements(ranked, relevant);
    }
  }

  lemma QuotientOne(x: real, d: real)
    requires d > 0.0
    ensures x / d == 1.0 <==> x == d
  {
    var q := x / d;
    assert q * d == x;
  }

  lemma PrefixElements<T>(ranked: seq<T>, relevant: set<T>)
    requires Distinct(ranked) && |relevant| <= |ranked|
    requires forall i | 0 <= i < |relevant| :: ranked[i] in relevant
    ensures Elements(ranked[..|relevant|]) == relevant
  {
    var prefix := ranked[..|relevant|];
    DistinctCount(prefix);
    forall x | x in Elements(prefix) ensures x in relevant {
      var i :| 0 <= i < |prefix| && prefix[i] == x;
    }
    SubsetCard(Elements(prefix), relevant);
  }

  lemma PrefixAll<T>(ranked: seq<T>, relevant: set<T>)
    requires Distinct(ranked) && |relevant| <= |ranked| && Elements(ranked[..|relevant|]) == relevant
    ensures Seen(ranked, relevant, |ranked|) == |relevant|
    ensures forall i | 0 <= i < |relevant| :: ranked[i] in relevant
  {
    forall i | 0 <= i < |relevant| ensures ranked[i] in relevant {
      assert ranked[..|relevant|][i] in Elements(ranked[..|relevant|]);
    }
    forall x | x in relevant ensures x in Elements(ranked) {
      assert x in Elements(ranked[..|relevant|]);
      assert x in ranked[..|relevant|];
    }
    assert relevant * Elements(ranked) == relevant;
    SeenMeaning(ranked, relevant, |ranked|);
    assert ranked[..|ranked|] == ranked;
  }

  // ----- promoting a relevant item

  function Promoted<T>(ranked: seq<T>, i: nat): seq<T>
    requires i + 1 < |ranked|
  {
    ranked[i := ranked[i + 1]][i + 1 := ranked[i]]
  }

  lemma {:induction false} SeenPromoted<T>(ranked: seq<T>, relevant: set<T>, i: nat, n: nat)
    requires i + 1 < |ranked| && n <= |ranked| && ranked[i] !in relevant && ranked[i + 1] in relevant
    ensures Seen(Promoted(ranked, i), relevant, n)
         == Seen(ranked, relevant, n) + if n == i + 1 then 1 else 0
  {
    if n > 0 { SeenPromoted(ranked, relevant, i, n - 1); }
  }

  /** What the promotion gains: the same count at a better rank. */
  function Gain<T(==)>(ranked: seq<T>, relevant: set<T>, i: nat): real
    requires i + 1 < |ranked|
  {
    var k := Seen(ranked, relevant, i + 2);
    Ratio(k, i + 1) - Ratio(k, i + 2)
  }

  lemma {:induction false} PrecisionPromoted<T>(ranked: seq<T>, relevant: set<T>, i: nat, n: nat)
    requires i + 1 < |ranked| && n <= |ranked| && n != i + 1 && ranked[i] !in relevant && ranked[i + 1] in relevant
    ensures PrecisionSum(Promoted(ranked, i), relevant, n)
         == PrecisionSum(ranked, relevant, n) + if n > i + 1 then Gain(ranked, relevant, i) else 0.0
  {
    if n == 0 {
    } else if n == i + 2 {
      PrecisionPromoted(ranked, relevant, i, i);
      SeenPromoted(ranked, relevant, i, i + 1);
      SeenPromoted(ranked, relevant, i, i + 2);
      PrecisionTwo(ranked, relevant, i);
    } else {
      PrecisionPromoted(ranked, relevant, i, n - 1);
      SeenPromoted(ranked, relevant, i, n);
    }
  }

  lemma PrecisionTwo<T>(ranked: seq<T>, relevant: set<T>, i: nat)
    requires i + 1 < |ranked| && ranked[i] !in relevant && ranked[i + 1] in relevant
    requires var p := Promoted(ranked, i);
      && Seen(p, relevant, i + 1) == Seen(ranked, relevant, i + 1) + 1
      && Seen(p, relevant, i + 2) == Seen(ranked, relevant, i + 2)
      && PrecisionSum(p, relevant, i) == PrecisionSum(ranked, relevant, i)
    ensures PrecisionSum(Promoted(ranked, i), relevant, i + 2)
         == PrecisionSum(ranked, relevant, i + 2) + Gain(ranked, relevant, i)
  {
    var p := Promoted(ranked, i);
    assert PrecisionSum(p, relevant, i + 2) == PrecisionSum(p, relevant, i + 1);
    assert PrecisionSum(p, relevant, i + 1) == PrecisionSum(p, relevant, i) + Ratio(Seen(p, relevant, i + 1), i + 1);
    assert PrecisionSum(ranked, relevant, i + 1) == PrecisionSum(ranked, relevant, i);
    assert Seen(ranked, relevant, i + 2) == Seen(ranked, relevant, i + 1) + 1;
  }

  lemma {:induction false} ReciprocalPromoted<T>(ranked: seq<T>, relevant: set<T>, i: nat, from: nat)
    requires i + 1 < |ranked| && from <= |ranked| && ranked[i] !in relevant && ranked[i + 1] in relevant
    requires from != i + 1
    ensures ReciprocalRank(ranked, relevant, from) <= ReciprocalRank(Promoted(ranked, i), relevant, from)
    decreases |ranked| - from
  {
    if from == i {
      RatioSmaller(1, i + 1, i + 2);
      assert ReciprocalRank(ranked, relevant, i) == ReciprocalRank(ranked, relevant, i + 1) == Ratio(1, i + 2);
    } else if from < |ranked| {
      ReciprocalPromoted(ranked, relevant, i, from + 1);
    }
  }

  /** Moving a relevant item one place ahead of an irrelevant one raises average precision and does
      not lower the reciprocal rank. */
  lemma PromotionHelps<T>(ranked: seq<T>, relevant: set<T>, i: nat)
    requires relevant != {} && i + 1 < |ranked| && ranked[i] !in relevant && ranked[i + 1] in relevant
    ensures AveragePrecision(ranked, relevant) < AveragePrecision(Promoted(ranked, i), relevant)
    ensures ReciprocalRank(ranked, relevant, 0) <= ReciprocalRank(Promoted(ranked, i), relevant, 0)
  {
    PrecisionPromoted(ranked, relevant, i, |ranked|);
    RatioSmaller(Seen(ranked, relevant, i + 2), i + 1, i + 2);
    DivisionOrder(PrecisionSum(ranked, relevant, |ranked|), PrecisionSum(Promoted(ranked, i), relevant, |ranked|),
      |relevant| as real);
    ReciprocalPromoted(ranked, relevant, i, 0);
  }
}
