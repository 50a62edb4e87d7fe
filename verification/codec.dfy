/**
 Repetition over self-delimiting items. A packet is a list of sets, a set a list of records,
 a record a list of field specifiers: each list is read either until too few bytes are left
 (`Many`) or a given number of times (`Times`). For any item layout that can be read back,
 both are shown to accept exactly the encodings of well-formed lists.
 */
module Codec {
  import opened Wrappers
  import opened Bytes
  import opened Sums

  /** One item read from the front of a byte string, and how many bytes it took. */
  datatype Parsed<+T> = Fail | Got(item: T, size: nat)

  /** A list of items and the bytes left after them. */
  datatype Items<T> = Items(items: seq<T>, tail: seq<Byte>)

  function Prepend<T>(xs: seq<T>, r: Option<Items<T>>): Option<Items<T>> {
    if r.None? then None else Some(Items(xs + r.value.items, r.value.tail))
  }

  /** Reads items while at least `least` bytes are left. */
  ghost function Many<T>(p: seq<Byte> -> Parsed<T>, least: nat, b: seq<Byte>): Option<Items<T>>
    decreases |b|
  {
    if |b| < least then Some(Items([], b))
    else if p(b).Fail? || p(b).size == 0 || p(b).size > |b| then None
    else Prepend([p(b).item], Many(p, least, b[p(b).size..]))
  }

  /** Reads exactly n items. */
  ghost function Times<T>(p: seq<Byte> -> Parsed<T>, n: nat, b: seq<Byte>): (r: Option<Items<T>>)
    ensures r.Some? ==> |r.value.items| == n && |r.value.tail| <= |b|
    decreases n
  {
    if n == 0 then Some(Items([], b))
    else if p(b).Fail? || p(b).size > |b| then None
    else Prepend([p(b).item], Times(p, n - 1, b[p(b).size..]))
  }

  function Encode<T>(e: T -> seq<Byte>, xs: seq<T>): seq<Byte> {
    if xs == [] then [] else e(xs[0]) + Encode(e, xs[1..])
  }

  ghost predicate All<T>(wf: T -> bool, xs: seq<T>) {
    forall i :: 0 <= i < |xs| ==> wf(xs[i])
  }

  /** Whatever p reads is the encoding of a well-formed item. */
  ghost predicate Sound<T>(p: seq<Byte> -> Parsed<T>, e: T -> seq<Byte>, wf: T -> bool) {
    forall b :: SoundAt(p, e, wf, b)
  }

  ghost predicate SoundAt<T>(p: seq<Byte> -> Parsed<T>, e: T -> seq<Byte>, wf: T -> bool, b: seq<Byte>) {
    p(b).Got? ==> p(b).size <= |b| && wf(p(b).item) && e(p(b).item) == b[..p(b).size]
  }

  /** p reads back every well-formed item, whatever follows it. */
  ghost predicate Complete<T(!new)>(p: seq<Byte> -> Parsed<T>, e: T -> seq<Byte>, wf: T -> bool) {
    forall x, rest :: CompleteAt(p, e, wf, x, rest)
  }

  ghost predicate CompleteAt<T>(p: seq<Byte> -> Parsed<T>, e: T -> seq<Byte>, wf: T -> bool,
                                x: T, rest: seq<Byte>)
  {
    wf(x) ==> p(e(x) + rest) == Got(x, |e(x)|)
  }

  ghost predicate Codes<T(!new)>(p: seq<Byte> -> Parsed<T>, e: T -> seq<Byte>, wf: T -> bool) {
    Sound(p, e, wf) && Complete(p, e, wf)
  }

  /** `whole` is what reading `rest` makes of a list that starts with `done`. */
  ghost predicate Continues<T>(whole: Option<Items<T>>, done: seq<T>, rest: Option<Items<T>>) {
    whole.Some? == rest.Some? &&
    (whole.Some? ==> whole.value.items == done + rest.value.items && whole.value.tail == rest.value.tail)
  }

  lemma ContinuesNext<T>(whole: Option<Items<T>>, done: seq<T>, x: T, rest: Option<Items<T>>)
    requires Continues(whole, done, Prepend([x], rest))
    ensures Continues(whole, done + [x], rest)
  {
    if rest.Some? {
      assert done + ([x] + rest.value.items) == done + [x] + rest.value.items;
    }
  }

  /** One more item read from a slice; the next one starts at `next`. */
  lemma ManyNext<T>(p: seq<Byte> -> Parsed<T>, least: nat, payload: seq<Byte>, at: nat, next: nat, end: nat,
                    x: T, whole: Option<Items<T>>, done: seq<T>)
    requires at + least <= end <= |payload| && at < next <= end
    requires p(payload[at..end]) == Got(x, next - at)
    requires Continues(whole, done, Many(p, least, payload[at..end]))
    ensures Continues(whole, done + [x], Many(p, least, payload[next..end]))
  {
    var b := payload[at..end];
    assert b[next - at..] == payload[next..end];
    ContinuesNext(whole, done, x, Many(p, least, b[next - at..]));
  }

  /** An item that cannot be read ends the reading. */
  lemma ManyRefused<T>(p: seq<Byte> -> Parsed<T>, least: nat, b: seq<Byte>, whole: Option<Items<T>>, done: seq<T>)
    requires |b| >= least && p(b).Fail?
    requires Continues(whole, done, Many(p, least, b))
    ensures whole.None?
  {
  }

  /** One item that takes all bytes. */
  lemma ManyOne<T>(p: seq<Byte> -> Parsed<T>, least: nat, b: seq<Byte>)
    requires 1 <= least <= |b| && (p(b).Got? ==> p(b).size == |b|)
    ensures Many(p, least, b) == if p(b).Fail? then None else Some(Items([p(b).item], []))
  {
    if p(b).Got? {
      assert b[|b|..] == [];
      assert Many(p, least, b[|b|..]) == Some(Items([], []));
      assert [p(b).item] + [] == [p(b).item];
    }
  }

  /** One more of n items read from a slice. */
  lemma TimesNext<T>(p: seq<Byte> -> Parsed<T>, n: nat, payload: seq<Byte>, at: nat, next: nat, end: nat,
                     x: T, whole: Option<Items<T>>, done: seq<T>)
    requires n > 0 && at <= next <= end <= |payload|
    requires p(payload[at..end]) == Got(x, next - at)
    requires Continues(whole, done, Times(p, n, payload[at..end]))
    ensures Continues(whole, done + [x], Times(p, n - 1, payload[next..end]))
  {
    var b := payload[at..end];
    assert b[next - at..] == payload[next..end];
    ContinuesNext(whole, done, x, Times(p, n - 1, b[next - at..]));
  }

  lemma TimesRefused<T>(p: seq<Byte> -> Parsed<T>, n: nat, b: seq<Byte>, whole: Option<Items<T>>, done: seq<T>)
    requires n > 0 && p(b).Fail?
    requires Continues(whole, done, Times(p, n, b))
    ensures whole.None?
  {
  }

  lemma TimesEnd<T>(whole: Option<Items<T>>, done: seq<T>, p: seq<Byte> -> Parsed<T>, b: seq<Byte>)
    requires Continues(whole, done, Times(p, 0, b))
    ensures whole == Some(Items(done, b))
  {
    assert done + [] == done;
  }

  lemma ContinuesEnd<T>(whole: Option<Items<T>>, done: seq<T>, p: seq<Byte> -> Parsed<T>, least: nat, b: seq<Byte>)
    requires |b| < least && Continues(whole, done, Many(p, least, b))
    ensures whole == Some(Items(done, b))
  {
    assert done + [] == done;
  }

  lemma Cons<T>(e: T -> seq<Byte>, wf: T -> bool, x: T, xs: seq<T>)
    ensures Encode(e, [x] + xs) == e(x) + Encode(e, xs)
    ensures wf(x) && All(wf, xs) ==> All(wf, [x] + xs)
  {
    assert ([x] + xs)[1..] == xs;
  }

  lemma {:induction false} EncodeAppend<T>(e: T -> seq<Byte>, xs: seq<T>, ys: seq<T>)
    ensures Encode(e, xs + ys) == Encode(e, xs) + Encode(e, ys)
  {
    if xs == [] {
      assert xs + ys == ys;
    } else {
      assert (xs + ys)[1..] == xs[1..] + ys;
      EncodeAppend(e, xs[1..], ys);
    }
  }

  lemma EncodeOne<T>(e: T -> seq<Byte>, x: T)
    ensures Encode(e, [x]) == e(x)
  {
    assert Encode(e, [x]) == e(x) + Encode(e, []);
  }

  lemma Empty<T>(e: T -> seq<Byte>, wf: T -> bool, tail: seq<Byte>)
    ensures Encode(e, []) + tail == tail && All(wf, [])
  {
  }

  /** What is read at the front, then what the rest is. */
  lemma SoundStep<T>(p: seq<Byte> -> Parsed<T>, e: T -> seq<Byte>, wf: T -> bool, b: seq<Byte>,
                     items: seq<T>, tail: seq<Byte>)
    requires Sound(p, e, wf) && p(b).Got? && p(b).size <= |b|
    requires b[p(b).size..] == Encode(e, items) + tail && All(wf, items)
    ensures b == Encode(e, [p(b).item] + items) + tail && All(wf, [p(b).item] + items)
  {
    var x, k := p(b).item, p(b).size;
    assert SoundAt(p, e, wf, b);
    Cons(e, wf, x, items);
    hide Encode, All, Sound;
    assert b == b[..k] + b[k..];
    assert e(x) + (Encode(e, items) + tail) == e(x) + Encode(e, items) + tail;
  }

  lemma {:induction false} ManySound<T>(p: seq<Byte> -> Parsed<T>, e: T -> seq<Byte>, wf: T -> bool,
                                        least: nat, b: seq<Byte>)
    requires Sound(p, e, wf)
    requires Many(p, least, b).Some?
    ensures var r := Many(p, least, b).value;
            b == Encode(e, r.items) + r.tail && All(wf, r.items) && |r.tail| < least
    decreases |b|
  {
    hide Encode, All, Sound;
    if |b| < least {
      Empty(e, wf, b);
    } else {
      var k := p(b).size;
      ManySound(p, e, wf, least, b[k..]);
      var rest := Many(p, least, b[k..]).value;
      SoundStep(p, e, wf, b, rest.items, rest.tail);
    }
  }

  /** A well-formed list is its first item and a well-formed list, and so is its encoding. */
  lemma CompleteStep<T(!new)>(p: seq<Byte> -> Parsed<T>, e: T -> seq<Byte>, wf: T -> bool, xs: seq<T>, tail: seq<Byte>)
    requires Complete(p, e, wf) && All(wf, xs) && xs != []
    ensures var b := Encode(e, xs) + tail;
            && wf(xs[0]) && All(wf, xs[1..]) && p(b) == Got(xs[0], |e(xs[0])|)
            && |e(xs[0])| <= |b| && b[|e(xs[0])|..] == Encode(e, xs[1..]) + tail
  {
    var rest := Encode(e, xs[1..]) + tail;
    assert Encode(e, xs) + tail == e(xs[0]) + rest;
    assert wf(xs[0]) && CompleteAt(p, e, wf, xs[0], rest);
  }

  lemma {:induction false} ManyComplete<T(!new)>(p: seq<Byte> -> Parsed<T>, e: T -> seq<Byte>, wf: T -> bool,
                                           least: nat, xs: seq<T>, tail: seq<Byte>)
    requires Complete(p, e, wf)
    requires All(wf, xs) && |tail| < least
    requires forall x :: wf(x) ==> |e(x)| >= least
    ensures Many(p, least, Encode(e, xs) + tail) == Some(Items(xs, tail))
    decreases |xs|
  {
    hide Encode, All, Complete;
    if xs == [] {
      Empty(e, wf, tail);
    } else {
      CompleteStep(p, e, wf, xs, tail);
      ManyComplete(p, e, wf, least, xs[1..], tail);
      assert [xs[0]] + xs[1..] == xs;
    }
  }

  lemma {:induction false} TimesSound<T>(p: seq<Byte> -> Parsed<T>, e: T -> seq<Byte>, wf: T -> bool,
                                         n: nat, b: seq<Byte>)
    requires Sound(p, e, wf)
    requires Times(p, n, b).Some?
    ensures var r := Times(p, n, b).value;
            b == Encode(e, r.items) + r.tail && All(wf, r.items) && |r.items| == n
    decreases n
  {
    hide Encode, All, Sound;
    if n == 0 {
      Empty(e, wf, b);
    } else {
      var k := p(b).size;
      TimesSound(p, e, wf, n - 1, b[k..]);
      var rest := Times(p, n - 1, b[k..]).value;
      SoundStep(p, e, wf, b, rest.items, rest.tail);
    }
  }

  lemma {:induction false} TimesComplete<T(!new)>(p: seq<Byte> -> Parsed<T>, e: T -> seq<Byte>, wf: T -> bool,
                                            xs: seq<T>, tail: seq<Byte>)
    requires Complete(p, e, wf)
    requires All(wf, xs)
    ensures Times(p, |xs|, Encode(e, xs) + tail) == Some(Items(xs, tail))
    decreases |xs|
  {
    hide Encode, All, Complete;
    if xs == [] {
      Empty(e, wf, tail);
    } else {
      CompleteStep(p, e, wf, xs, tail);
      TimesComplete(p, e, wf, xs[1..], tail);
      assert [xs[0]] + xs[1..] == xs;
    }
  }

  lemma EncodeNext<T>(e: T -> seq<Byte>, xs: seq<T>, k: nat)
    requires k < |xs|
    ensures Encode(e, xs[..k + 1]) == Encode(e, xs[..k]) + e(xs[k])
  {
    assert xs[..k + 1] == xs[..k] + [xs[k]];
    EncodeAppend(e, xs[..k], [xs[k]]);
    EncodeOne(e, xs[k]);
  }

  /** Item k of a list of items of one length. */
  lemma {:induction false} ItemAt<T>(e: T -> seq<Byte>, xs: seq<T>, w: nat, k: nat)
    requires (forall x :: x in xs ==> |e(x)| == w) && k < |xs|
    ensures 0 <= k * w <= k * w + w <= |Encode(e, xs)|
    ensures Encode(e, xs)[k * w..k * w + w] == e(xs[k])
  {
    assert xs[0] in xs;
    if k == 0 {
      assert 0 * w == 0;
    } else {
      ItemAt(e, xs[1..], w, k - 1);
      assert (k - 1) * w + w == k * w;
      var first, rest := e(xs[0]), Encode(e, xs[1..]);
      assert (first + rest)[w + (k - 1) * w..w + (k - 1) * w + w] == rest[(k - 1) * w..(k - 1) * w + w];
    }
  }

  // ----- Lists of items seen as other items -----

  function Mapped<A, B>(f: A -> B, xs: seq<A>): seq<B> {
    seq(|xs|, i requires 0 <= i < |xs| => f(xs[i]))
  }

  lemma MappedOne<A, B>(f: A -> B, x: A)
    ensures Mapped(f, [x]) == [f(x)]
  {
  }

  /** Items that are laid out as their images make lists that are laid out as the lists of images. */
  lemma {:induction false} EncodeMapped<A, B>(ea: A -> seq<Byte>, eb: B -> seq<Byte>, f: A -> B, xs: seq<A>)
    requires forall x :: x in xs ==> ea(x) == eb(f(x))
    ensures Encode(ea, xs) == Encode(eb, Mapped(f, xs))
  {
    if xs == [] {
    } else {
      EncodeMapped(ea, eb, f, xs[1..]);
      assert Mapped(f, xs)[1..] == Mapped(f, xs[1..]);
      assert xs[0] in xs;
    }
  }

  lemma AllMapped<A, B>(wf: B -> bool, f: A -> B, xs: seq<A>)
    requires forall x :: x in xs ==> wf(f(x))
    ensures All(wf, Mapped(f, xs))
  {
  }

  lemma AllSplit<T>(wf: T -> bool, xs: seq<T>, n: nat)
    requires n <= |xs| && All(wf, xs)
    ensures All(wf, xs[..n]) && All(wf, xs[n..])
  {
  }

  lemma TimesCount<T>(p: seq<Byte> -> Parsed<T>, n: nat, b: seq<Byte>)
    ensures Times(p, n, b).Some? ==> |Times(p, n, b).value.items| == n
  {
  }

  lemma AllConcat<T>(wf: T -> bool, xs: seq<T>, ys: seq<T>)
    requires All(wf, xs) && All(wf, ys)
    ensures All(wf, xs + ys)
  {
  }

  /** A list is as long as its items together. */
  lemma {:induction false} EncodeLength<T>(e: T -> seq<Byte>, length: T -> nat, xs: seq<T>)
    requires forall x :: x in xs ==> |e(x)| == length(x)
    ensures |Encode(e, xs)| == Sum(Mapped(length, xs))
    decreases |xs|
  {
    if xs == [] {
    } else {
      var n := |xs| - 1;
      EncodeLength(e, length, xs[..n]);
      EncodeNext(e, xs, n);
      assert xs[..n + 1] == xs && xs[n] in xs;
      assert Mapped(length, xs)[..n] == Mapped(length, xs[..n]);
    }
  }
}
