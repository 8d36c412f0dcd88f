/** Values shared by every part of the relay model. */
module Common {

  datatype Option<+T> = None | Some(value: T)

  /** SQL's COALESCE on two columns: the first one that is not NULL. */
  function Coalesce<T>(first: Option<T>, second: Option<T>): Option<T> {
    if first.Some? then first else second
  }

  /** Limits the API is configured with. */
  datatype Config = Config(maxActive: nat, expiry: nat)

  /** What the operator answers to one on-chain cancellation. */
  datatype Cancel = NotBuilt | NotSubmitted | Sent(tx: string)
}

/** Sizes of finite sets, and names not used yet. */
module Sizes {

  lemma {:induction false} SubsetSize<T>(a: set<T>, b: set<T>)
    requires a <= b
    ensures |a| <= |b|
    decreases |b|
  {
    if b != {} {
      var x :| x in b;
      SubsetSize(a - {x}, b - {x});
      if x !in a { assert a - {x} == a; }
    }
  }

  lemma UnionSize<T>(a: set<T>, b: set<T>)
    ensures |a + b| <= |a| + |b|
  {
    SubsetSize(b - a, b);
    assert a + b == a + (b - a);
  }

  /** A set named by the members of another is no larger. */
  lemma {:induction false} ImageSize<S, T>(names: set<S>, of: S -> T, image: set<T>)
    requires forall y :: y in image ==> exists x :: x in names && of(x) == y
    ensures |image| <= |names|
    decreases |names|
  {
    if names == {} {
      assert forall y :: y !in image;
      assert image == {};
    } else {
      var x :| x in names;
      forall y | y in image - {of(x)} ensures exists x' :: x' in names - {x} && of(x') == y {
        var x' :| x' in names && of(x') == y;
        assert x' in names - {x};
      }
      ImageSize(names - {x}, of, image - {of(x)});
      SubsetSize(image, image - {of(x)} + {of(x)});
    }
  }

  lemma Member<T>(s: set<T>) returns (x: T)
    requires s != {}
    ensures x in s
  {
    x :| x in s;
  }

  /** Element by element, for sets of numbers. */
  lemma {:induction false} Included(a: set<int>, b: set<int>)
    requires forall x :: x in a ==> x in b
    ensures a <= b
    decreases |a|
  {
    if a != {} {
      var x := Member(a);
      Included(a - {x}, b);
    }
  }

  lemma {:induction false} FreshText(used: set<string>) returns (text: string)
    ensures forall u :: u in used ==> |u| < |text|
  {
    if used == {} { text := "h"; }
    else {
      var u := Member(used);
      text := FreshText(used - {u});
      if |text| <= |u| { text := u + "h"; }
    }
  }

  lemma {:induction false} FreshInt(used: set<int>) returns (n: nat)
    ensures forall u :: u in used ==> u < n
  {
    if used == {} { n := 0; }
    else {
      var u := Member(used);
      var rest := used - {u};
      n := FreshInt(rest);
      if n <= u { n := u + 1; }
      forall v | v in used ensures v < n { assert v == u || v in rest; }
    }
  }
}

/** Sums of non-negative weights over finite sets of keys. */
module Sums {

  ghost function Sum<K>(keys: set<K>, weight: K -> nat): nat {
    if keys == {} then 0
    else
      var k :| k in keys;
      weight(k) + Sum(keys - {k}, weight)
  }

  /** The order in which keys are taken does not matter. */
  lemma {:induction false} Extract<K>(keys: set<K>, weight: K -> nat, x: K)
    requires x in keys
    ensures Sum(keys, weight) == weight(x) + Sum(keys - {x}, weight)
    decreases |keys|
  {
    var k :| k in keys && Sum(keys, weight) == weight(k) + Sum(keys - {k}, weight);
    if k != x {
      Extract(keys - {k}, weight, x);
      Extract(keys - {x}, weight, k);
      assert keys - {k} - {x} == keys - {x} - {k};
    }
  }

  lemma Insert<K>(keys: set<K>, weight: K -> nat, x: K)
    requires x !in keys
    ensures Sum(keys + {x}, weight) == Sum(keys, weight) + weight(x)
  {
    Extract(keys + {x}, weight, x);
    assert keys + {x} - {x} == keys;
  }

  /** Only the weights of the summed keys matter. */
  lemma {:induction false} Congruent<K>(keys: set<K>, v: K -> nat, w: K -> nat)
    requires forall k :: k in keys ==> v(k) == w(k)
    ensures Sum(keys, v) == Sum(keys, w)
    decreases |keys|
  {
    if keys != {} {
      var k :| k in keys && Sum(keys, v) == v(k) + Sum(keys - {k}, v);
      Extract(keys, w, k);
      Congruent(keys - {k}, v, w);
    }
  }

  lemma {:induction false} Monotone<K>(small: set<K>, large: set<K>, weight: K -> nat)
    requires small <= large
    ensures Sum(small, weight) <= Sum(large, weight)
    decreases |small|
  {
    if small != {} {
      var k :| k in small && Sum(small, weight) == weight(k) + Sum(small - {k}, weight);
      Extract(large, weight, k);
      Monotone(small - {k}, large - {k}, weight);
    }
  }
}
