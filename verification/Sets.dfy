/** Counting facts about finite sets. */
module Sets {

  lemma Within<T>(a: set<T>, b: set<T>)
    requires a <= b
    ensures |a| <= |b|
  {
    assert b == a + (b - a);
  }

  lemma Insert<T>(a: set<T>, b: set<T>, x: T)
    requires b <= a + {x}
    ensures |b| <= |a| + 1
  {
    assert b - {x} <= a;
    Within(b - {x}, a);
    assert b <= (b - {x}) + {x};
    if x in b { assert b == (b - {x}) + {x}; } else { assert b == b - {x}; }
  }
}
