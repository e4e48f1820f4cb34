/**
 The orders the program sorts by, and sorting itself: an increasing list is
 determined by its elements, whatever order they were collected in.
 */
module Order {
  import opened Wrappers

  /** A port with its protocol: a listener, a socat key, an exposed port or a host port. */
  datatype ProtoPort = ProtoPort(port: int, protocol: string)

  /** Go's `<` on strings. */
  predicate TextLess(a: string, b: string) {
    if b == "" then false
    else if a == "" then true
    else if a[0] != b[0] then a[0] < b[0]
    else TextLess(a[1..], b[1..])
  }

  /** TCP before UDP, then by port. */
  predicate ProtoPortLess(a: ProtoPort, b: ProtoPort) {
    if a.protocol != b.protocol then TextLess(a.protocol, b.protocol) else a.port < b.port
  }

  ghost predicate StrictOrder<T(!new)>(less: (T, T) -> bool) {
    && (forall a :: !less(a, a))
    && (forall a, b :: a != b ==> less(a, b) || less(b, a))
    && (forall a, b, c :: less(a, b) && less(b, c) ==> less(a, c))
  }

  lemma {:induction false} TextLessTrichotomy(a: string, b: string)
    ensures !TextLess(a, a)
    ensures a != b ==> TextLess(a, b) || TextLess(b, a)
    decreases |a| + |b|
  {
    if a != "" {
      TextLessTrichotomy(a[1..], if b != "" then b[1..] else "");
      assert b != "" && a[0] == b[0] && a[1..] == b[1..] ==> a == [a[0]] + a[1..] == b;
    }
  }

  lemma {:induction false} TextLessTransitive(a: string, b: string, c: string)
    requires TextLess(a, b) && TextLess(b, c)
    ensures TextLess(a, c)
  {
    if a != "" && a[0] == b[0] && b[0] == c[0] {
      TextLessTransitive(a[1..], b[1..], c[1..]);
    }
  }

  lemma TextOrder()
    ensures StrictOrder(TextLess)
  {
    forall a, b
      ensures !TextLess(a, a) && (a != b ==> TextLess(a, b) || TextLess(b, a))
    {
      TextLessTrichotomy(a, b);
    }
    forall a, b, c | TextLess(a, b) && TextLess(b, c)
      ensures TextLess(a, c)
    {
      TextLessTransitive(a, b, c);
    }
  }

  /** The order is that of a dictionary: the first difference decides, and a prefix comes first. */
  lemma {:induction false} TextLessMeaning(a: string, b: string)
    ensures TextLess(a, b) <==>
            exists k :: 0 <= k <= |a| && k < |b| && a[..k] == b[..k] && (k == |a| || a[k] < b[k])
  {
    if a != "" && b != "" && a[0] == b[0] {
      TextLessMeaning(a[1..], b[1..]);
      var a', b' := a[1..], b[1..];
      if k :| 0 <= k <= |a'| && k < |b'| && a'[..k] == b'[..k] && (k == |a'| || a'[k] < b'[k]) {
        assert a[..k + 1] == [a[0]] + a[1..][..k] && b[..k + 1] == [b[0]] + b[1..][..k];
        assert 0 <= k + 1 <= |a| && a[..k + 1] == b[..k + 1];
      }
      if k :| 0 <= k <= |a| && k < |b| && a[..k] == b[..k] && (k == |a| || a[k] < b[k]) {
        assert k > 0;
        assert a[1..][..k - 1] == a[..k][1..] && b[1..][..k - 1] == b[..k][1..];
        assert 0 <= k - 1 <= |a[1..]|;
      }
    } else if a == "" && b != "" {
      assert a[..0] == b[..0];
    } else if a != "" && b != "" {
      assert a[..0] == b[..0];
      forall k | 0 < k <= |a| && k < |b|
        ensures a[..k] != b[..k]
      {
        assert a[..k][0] == a[0] && b[..k][0] == b[0];
      }
    }
  }

  /** TCP ports come before UDP ports, and lower ports before higher ones. */
  lemma ProtoPortsInOrder(a: ProtoPort, b: ProtoPort)
    requires (a.protocol == "tcp" || a.protocol == "udp") && (b.protocol == "tcp" || b.protocol == "udp")
    ensures ProtoPortLess(a, b) <==>
            (a.protocol == "tcp" && b.protocol == "udp") || (a.protocol == b.protocol && a.port < b.port)
  {
    assert "tcp"[0] == 't' && "udp"[0] == 'u';
    assert TextLess("tcp", "udp") && !TextLess("udp", "tcp");
  }

  lemma ProtoPortOrder()
    ensures StrictOrder(ProtoPortLess)
  {
    TextOrder();
    forall a: ProtoPort, b: ProtoPort, c: ProtoPort | ProtoPortLess(a, b) && ProtoPortLess(b, c)
      ensures ProtoPortLess(a, c)
    {
      assert !TextLess(a.protocol, a.protocol);
      assert TextLess(a.protocol, b.protocol) && TextLess(b.protocol, c.protocol) ==> TextLess(a.protocol, c.protocol);
    }
  }

  predicate NoRepeats<T(==)>(s: seq<T>) {
    forall i, j :: 0 <= i < j < |s| ==> s[i] != s[j]
  }

  function AddOnce<T(==)>(out: seq<T>, x: T): seq<T> {
    if x in out then out else out + [x]
  }

  /** The first occurrence of each element, in order: a list filled through a `seen` map. */
  function FirstOccurrences<T(==)>(s: seq<T>): seq<T> {
    if s == [] then [] else AddOnce(FirstOccurrences(s[..|s| - 1]), s[|s| - 1])
  }

  lemma OccurrencesSnoc<T>(s: seq<T>, x: T)
    ensures FirstOccurrences(s + [x]) == AddOnce(FirstOccurrences(s), x)
  {
    assert (s + [x])[..|s|] == s;
  }

  lemma {:induction false} OccurrencesMeaning<T>(s: seq<T>)
    ensures NoRepeats(FirstOccurrences(s))
    ensures forall x :: x in FirstOccurrences(s) <==> x in s
  {
    if s != [] {
      var init, x := s[..|s| - 1], s[|s| - 1];
      OccurrencesMeaning(init);
      assert s == init + [x];
      OccurrencesSnoc(init, x);
    }
  }

  lemma PlaceOf<T>(s: seq<T>, x: T) returns (k: nat)
    requires x in FirstOccurrences(s)
    ensures k < |s| && s[k] == x
  {
    OccurrencesMeaning(s);
    k :| k < |s| && s[k] == x;
  }

  /** Of two elements, the one that occurs first in the list comes first. */
  lemma {:induction false} OccurrencesInOrder<T>(s: seq<T>, i: nat, j: nat)
    requires i < j < |FirstOccurrences(s)|
    ensures exists k :: 0 <= k < |s| && s[k] == FirstOccurrences(s)[i] && FirstOccurrences(s)[j] !in s[..k + 1]
  {
    var init, x := s[..|s| - 1], s[|s| - 1];
    var before := FirstOccurrences(init);
    OccurrencesMeaning(init);
    if j < |before| {
      OccurrencesInOrder(init, i, j);
      var k :| 0 <= k < |init| && init[k] == before[i] && before[j] !in init[..k + 1];
      assert s[..k + 1] == init[..k + 1] && s[k] == init[k];
    } else {
      var k := PlaceOf(init, before[i]);
      assert x !in init;
      assert s[k] == init[k] && s[..k + 1] == init[..k + 1];
    }
  }

  predicate Increasing<T>(less: (T, T) -> bool, s: seq<T>) {
    forall i, j :: 0 <= i < j < |s| ==> less(s[i], s[j])
  }

  /** The only way to list a set in increasing order. */
  lemma {:induction false} IncreasingIsUnique<T(!new)>(less: (T, T) -> bool, a: seq<T>, b: seq<T>)
    requires StrictOrder(less)
    requires Increasing(less, a) && Increasing(less, b)
    requires forall x :: x in a <==> x in b
    ensures a == b
  {
    assert a != [] ==> a[0] in b;
    assert b != [] ==> b[0] in a;
    if a != [] {
      assert a[0] == b[0];
      var a', b' := a[1..], b[1..];
      assert a == [a[0]] + a' && b == [b[0]] + b';
      forall x
        ensures x in a' <==> x in b'
      {
        assert x in a' ==> x in a && less(a[0], x);
        assert x in b' ==> x in b && less(b[0], x);
      }
      IncreasingIsUnique(less, a', b');
    }
  }

  function Insert<T(!new)>(less: (T, T) -> bool, s: seq<T>, x: T): seq<T> {
    if s == [] || less(x, s[0]) then [x] + s else [s[0]] + Insert(less, s[1..], x)
  }

  /** The library sort, on a list without repetitions. */
  function Sort<T(!new)>(less: (T, T) -> bool, s: seq<T>): seq<T> {
    if s == [] then [] else Insert(less, Sort(less, s[1..]), s[0])
  }

  lemma {:induction false} InsertInserts<T(!new)>(less: (T, T) -> bool, s: seq<T>, x: T)
    requires StrictOrder(less) && Increasing(less, s) && x !in s
    ensures Increasing(less, Insert(less, s, x))
    ensures forall y :: y in Insert(less, s, x) <==> y == x || y in s
  {
    if s != [] && !less(x, s[0]) {
      var t := Insert(less, s[1..], x);
      assert s == [s[0]] + s[1..];
      assert forall y :: y in s[1..] ==> y in s && less(s[0], y);
      InsertInserts(less, s[1..], x);
      assert less(s[0], x);
      assert forall y :: y in t ==> less(s[0], y);
    }
  }

  lemma {:induction false} SortSorts<T(!new)>(less: (T, T) -> bool, s: seq<T>)
    requires StrictOrder(less) && NoRepeats(s)
    ensures Increasing(less, Sort(less, s))
    ensures forall x :: x in Sort(less, s) <==> x in s
  {
    if s != [] {
      assert s == [s[0]] + s[1..];
      SortSorts(less, s[1..]);
      InsertInserts(less, Sort(less, s[1..]), s[0]);
    }
  }
}
