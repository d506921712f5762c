/** Recursive key sorting before signing (src/events/webhooks/signature.ts:3-43). */
module Canonical {
  import opened Json
  import opened JsonReader

  // --------------------------------------------------------- order on keys

  /** The order of Array.prototype.sort on strings: by UTF-16 code units. */
  predicate Less(a: Text, b: Text) {
    b != [] && (a == [] || a[0] < b[0] || (a[0] == b[0] && Less(a[1..], b[1..])))
  }

  /** Ascending lexicographic order: the texts agree up to some place, where the first
      ends or has the smaller code unit. */
  ghost predicate Precedes(a: Text, b: Text) {
    exists i :: 0 <= i <= |a| && i < |b| && a[..i] == b[..i] && (i == |a| || a[i] < b[i])
  }

  lemma {:induction false} LessIsPrecedes(a: Text, b: Text)
    ensures Less(a, b) <==> Precedes(a, b)
  {
    if a != [] && b != [] && a[0] == b[0] {
      LessIsPrecedes(a[1..], b[1..]);
      if Precedes(a[1..], b[1..]) {
        var i :| 0 <= i <= |a[1..]| && i < |b[1..]| && a[1..][..i] == b[1..][..i] && (i == |a[1..]| || a[1..][i] < b[1..][i]);
        assert a[..i + 1] == [a[0]] + a[1..][..i] && b[..i + 1] == [b[0]] + b[1..][..i];
      }
      if Precedes(a, b) {
        var i :| 0 <= i <= |a| && i < |b| && a[..i] == b[..i] && (i == |a| || a[i] < b[i]);
        assert i > 0;
        assert a[1..][..i - 1] == a[..i][1..] && b[1..][..i - 1] == b[..i][1..];
      }
    } else {
      assert a[..0] == b[..0];
      assert forall i :: 0 < i <= |a| && i < |b| && a[..i] == b[..i] ==> a[..i][0] == b[..i][0];
    }
  }

  lemma {:induction false} LessConnected(a: Text, b: Text)
    ensures a == b || Less(a, b) || Less(b, a)
  {
    if a != [] && b != [] && a[0] == b[0] {
      LessConnected(a[1..], b[1..]);
      assert a == [a[0]] + a[1..] && b == [b[0]] + b[1..];
    }
  }

  lemma {:induction false} LessTransitive(a: Text, b: Text, c: Text)
    requires Less(a, b) && Less(b, c)
    ensures Less(a, c)
  {
    if a != [] && a[0] == b[0] == c[0] {
      LessTransitive(a[1..], b[1..], c[1..]);
    }
  }

  lemma {:induction false} LessIrreflexive(a: Text)
    ensures !Less(a, a)
  {
    if a != [] { LessIrreflexive(a[1..]); }
  }

  ghost predicate SortedKeys(keys: seq<Text>) {
    forall i, j :: 0 <= i < j < |keys| ==> Less(keys[i], keys[j])
  }

  function KeySet(keys: seq<Text>): set<Text> {
    set k | k in keys
  }

  function InsertKey(keys: seq<Text>, k: Text): seq<Text> {
    if keys == [] then [k]
    else if Less(k, keys[0]) then [k] + keys
    else [keys[0]] + InsertKey(keys[1..], k)
  }

  /** Object.keys(value).sort() */
  function SortKeys(keys: seq<Text>): seq<Text> {
    if keys == [] then [] else InsertKey(SortKeys(keys[1..]), keys[0])
  }

  lemma {:induction false} InsertKeySorts(keys: seq<Text>, k: Text)
    requires SortedKeys(keys) && k !in keys
    ensures SortedKeys(InsertKey(keys, k))
    ensures KeySet(InsertKey(keys, k)) == KeySet(keys) + {k}
  {
    if keys == [] {
    } else if Less(k, keys[0]) {
      forall j | 0 <= j < |keys| ensures Less(k, keys[j]) {
        if j > 0 { LessTransitive(k, keys[0], keys[j]); }
      }
    } else {
      LessConnected(k, keys[0]);
      InsertKeySorts(keys[1..], k);
      var rest := InsertKey(keys[1..], k);
      forall j | 0 <= j < |rest| ensures Less(keys[0], rest[j]) {
        assert rest[j] in KeySet(rest);
      }
    }
  }

  lemma {:induction false} SortKeysSorts(keys: seq<Text>)
    requires forall i, j :: 0 <= i < j < |keys| ==> keys[i] != keys[j]
    ensures SortedKeys(SortKeys(keys)) && KeySet(SortKeys(keys)) == KeySet(keys)
    ensures forall i, j :: 0 <= i < j < |SortKeys(keys)| ==> Precedes(SortKeys(keys)[i], SortKeys(keys)[j])
  {
    if keys != [] {
      SortKeysSorts(keys[1..]);
      assert keys[0] !in KeySet(SortKeys(keys[1..]));
      InsertKeySorts(SortKeys(keys[1..]), keys[0]);
      assert keys == [keys[0]] + keys[1..];
    }
    var sorted := SortKeys(keys);
    forall i, j | 0 <= i < j < |sorted| ensures Precedes(sorted[i], sorted[j]) { LessIsPrecedes(sorted[i], sorted[j]); }
  }

  lemma NoKeys(keys: seq<Text>)
    ensures keys == [] <==> KeySet(keys) == {}
  {
    if keys != [] { assert keys[0] in KeySet(keys); }
  }

  /** A set of keys has only one sorted list. */
  lemma {:induction false} SortedUnique(xs: seq<Text>, ys: seq<Text>)
    requires SortedKeys(xs) && SortedKeys(ys) && KeySet(xs) == KeySet(ys)
    ensures xs == ys
  {
    NoKeys(xs);
    NoKeys(ys);
    if xs != [] {
      HeadIsLeast(xs, ys);
      TailKeys(xs);
      TailKeys(ys);
      SortedUnique(xs[1..], ys[1..]);
      assert xs == [xs[0]] + xs[1..] && ys == [ys[0]] + ys[1..];
    }
  }

  lemma HeadIsLeast(xs: seq<Text>, ys: seq<Text>)
    requires xs != [] && ys != [] && SortedKeys(xs) && SortedKeys(ys) && KeySet(xs) == KeySet(ys)
    ensures xs[0] == ys[0]
  {
    assert xs[0] in KeySet(ys) && ys[0] in KeySet(xs);
    if xs[0] != ys[0] {
      LessTransitive(xs[0], ys[0], xs[0]);
      LessIrreflexive(xs[0]);
    }
  }

  lemma TailKeys(xs: seq<Text>)
    requires xs != [] && SortedKeys(xs)
    ensures KeySet(xs[1..]) == KeySet(xs) - {xs[0]}
  {
    LessIrreflexive(xs[0]);
    assert xs == [xs[0]] + xs[1..];
  }

  // -------------------------------------------------------------- canonical

  function Keys(members: seq<Member>): seq<Text> {
    seq(|members|, i requires 0 <= i < |members| => members[i].key)
  }

  /** The place of a key among the members. */
  function IndexOf(members: seq<Member>, key: Text): (i: nat)
    requires key in Keys(members)
    ensures i < |members| && members[i].key == key
  {
    if members[0].key == key then 0
    else
      assert key in Keys(members[1..]) by {
        var j :| 0 <= j < |members| && Keys(members)[j] == key;
        assert Keys(members[1..])[j - 1] == key;
      }
      1 + IndexOf(members[1..], key)
  }

  /** Every object, at every depth, with its keys sorted; array order is kept. */
  function Canonical(v: Json): Json
    decreases v, 1, 0
  {
    match v
    case Arr(items) => Arr(seq(|items|, i requires 0 <= i < |items| => Canonical(items[i])))
    case Obj(members) =>
      SortKeysKeep(Keys(members));
      Obj(Pick(v, SortKeys(Keys(members))))
    case _ => v
  }

  /** The members under the given keys, in that order, each canonical. */
  function Pick(v: Json, keys: seq<Text>): (r: seq<Member>)
    requires v.Obj? && forall i :: 0 <= i < |keys| ==> keys[i] in Keys(v.members)
    ensures |r| == |keys|
    ensures forall i :: 0 <= i < |keys| ==>
      r[i] == Member(keys[i], Canonical(v.members[IndexOf(v.members, keys[i])].value))
    decreases v, 0, |keys|
  {
    if keys == [] then []
    else
      var n := |keys| - 1;
      Pick(v, keys[..n]) + [Member(keys[n], Canonical(v.members[IndexOf(v.members, keys[n])].value))]
  }

  lemma {:induction false} SortKeysKeep(keys: seq<Text>)
    ensures forall i :: 0 <= i < |SortKeys(keys)| ==> SortKeys(keys)[i] in keys
  {
    if keys != [] {
      SortKeysKeep(keys[1..]);
      InsertKeyKeeps(SortKeys(keys[1..]), keys[0]);
    }
  }

  lemma {:induction false} InsertKeyKeeps(keys: seq<Text>, k: Text)
    ensures forall i :: 0 <= i < |InsertKey(keys, k)| ==> InsertKey(keys, k)[i] == k || InsertKey(keys, k)[i] in keys
  {
    if keys != [] && !Less(k, keys[0]) {
      InsertKeyKeeps(keys[1..], k);
    }
  }

  // ---------------------------------------------------------------- meaning

  /** What a JSON value means: an object is a map, so its key order is forgotten
      at every depth. */
  datatype Value =
    | VNull | VBool(b: bool) | VNum(text: Text) | VStr(s: Text)
    | VArr(items: seq<Value>)
    | VObj(members: map<Text, Value>)

  function Meaning(v: Json): Value
    decreases v, 1
  {
    match v
    case Null => VNull
    case Bool(b) => VBool(b)
    case Num(text) => VNum(text)
    case Str(s) => VStr(s)
    case Arr(items) => VArr(seq(|items|, i requires 0 <= i < |items| => Meaning(items[i])))
    case Obj(members) => VObj(MeaningOf(members))
  }

  function MeaningOf(members: seq<Member>): map<Text, Value>
    decreases members, 0
  {
    if members == [] then map[]
    else MeaningOf(members[1..])[members[0].key := Meaning(members[0].value)]
  }

  lemma {:induction false} MeaningOfMembers(members: seq<Member>)
    requires DistinctKeys(members)
    ensures forall k :: k in MeaningOf(members) <==> k in Keys(members)
    ensures forall i :: 0 <= i < |members| ==>
      members[i].key in MeaningOf(members) && MeaningOf(members)[members[i].key] == Meaning(members[i].value)
  {
    if members != [] {
      MeaningOfMembers(members[1..]);
      assert members == [members[0]] + members[1..];
      assert Keys(members) == [members[0].key] + Keys(members[1..]);
    }
  }

  // --------------------------------------------------- canonical and meaning

  lemma SortedKeysOf(members: seq<Member>)
    requires DistinctKeys(members)
    ensures SortedKeys(SortKeys(Keys(members)))
    ensures KeySet(SortKeys(Keys(members))) == KeySet(Keys(members))
    ensures forall i :: 0 <= i < |SortKeys(Keys(members))| ==> SortKeys(Keys(members))[i] in Keys(members)
  {
    SortKeysSorts(Keys(members));
    SortKeysKeep(Keys(members));
  }

  lemma SortedKeysDiffer(keys: seq<Text>, i: nat, j: nat)
    requires SortedKeys(keys) && i < j < |keys|
    ensures keys[i] != keys[j]
  {
    LessIrreflexive(keys[i]);
  }

  /** Canonical values are values, and mean what they meant. */
  lemma {:induction false} CanonicalKeepsMeaning(v: Json)
    requires WellFormed(v)
    ensures WellFormed(Canonical(v)) && Meaning(Canonical(v)) == Meaning(v)
  {
    match v
    case Arr(items) =>
      forall i | 0 <= i < |items| ensures WellFormed(Canonical(items[i])) && Meaning(Canonical(items[i])) == Meaning(items[i]) {
        CanonicalKeepsMeaning(items[i]);
      }
    case Obj(members) =>
      forall i | 0 <= i < |members|
        ensures WellFormed(Canonical(members[i].value)) && Meaning(Canonical(members[i].value)) == Meaning(members[i].value)
      {
        CanonicalKeepsMeaning(members[i].value);
      }
      PickKeepsMeaning(v);
    case _ =>
  }

  /** The picked members have the same keys, each once, in sorted order. */
  lemma PickedKeys(v: Json)
    requires v.Obj? && DistinctKeys(v.members)
    ensures var picked := Canonical(v).members;
      && DistinctKeys(picked)
      && (forall k :: k in Keys(picked) <==> k in Keys(v.members))
      && (forall i :: 0 <= i < |picked| ==>
           && picked[i].key in Keys(v.members)
           && picked[i].value == Canonical(v.members[IndexOf(v.members, picked[i].key)].value))
  {
    var keys := SortKeys(Keys(v.members));
    SortedKeysOf(v.members);
    var picked := Pick(v, keys);
    forall i, j | 0 <= i < j < |picked| ensures picked[i].key != picked[j].key { SortedKeysDiffer(keys, i, j); }
    assert Keys(picked) == keys;
    forall k ensures k in keys <==> k in Keys(v.members) {
      assert k in keys <==> k in KeySet(keys);
      assert k in Keys(v.members) <==> k in KeySet(Keys(v.members));
    }
  }

  /** The keys of every object, at every depth, stand in ascending order. */
  ghost predicate KeysAscend(v: Json) {
    match v
    case Arr(items) => forall i :: 0 <= i < |items| ==> KeysAscend(items[i])
    case Obj(members) =>
      && (forall i, j :: 0 <= i < j < |members| ==> Precedes(members[i].key, members[j].key))
      && forall i :: 0 <= i < |members| ==> KeysAscend(members[i].value)
    case _ => true
  }

  lemma {:induction false} CanonicalAscends(v: Json)
    requires WellFormed(v)
    ensures KeysAscend(Canonical(v))
  {
    match v
    case Arr(items) =>
      forall i | 0 <= i < |items| ensures KeysAscend(Canonical(items[i])) { CanonicalAscends(items[i]); }
    case Obj(members) =>
      forall i | 0 <= i < |members| ensures KeysAscend(Canonical(members[i].value)) { CanonicalAscends(members[i].value); }
      PickedKeysAscend(v);
    case _ =>
  }

  lemma PickedKeysAscend(v: Json)
    requires v.Obj? && DistinctKeys(v.members)
    requires forall i :: 0 <= i < |v.members| ==> KeysAscend(Canonical(v.members[i].value))
    ensures KeysAscend(Canonical(v))
  {
    SortKeysSorts(Keys(v.members));
    SortKeysKeep(Keys(v.members));
  }

  lemma PickKeepsMeaning(v: Json)
    requires v.Obj? && DistinctKeys(v.members)
    requires forall i :: 0 <= i < |v.members| ==>
      WellFormed(Canonical(v.members[i].value)) && Meaning(Canonical(v.members[i].value)) == Meaning(v.members[i].value)
    ensures WellFormed(Canonical(v)) && Meaning(Canonical(v)) == Meaning(v)
  {
    var members, picked := v.members, Canonical(v).members;
    PickedKeys(v);
    MeaningOfMembers(members);
    MeaningOfMembers(picked);
    forall k | k in MeaningOf(picked) ensures MeaningOf(picked)[k] == MeaningOf(members)[k] {
      var i := IndexOf(picked, k);
      assert members[IndexOf(members, k)].key == k;
    }
    assert MeaningOf(picked) == MeaningOf(members);
  }

  /** Values that mean the same have the same canonical form. */
  lemma {:induction false} MeaningDeterminesCanonical(a: Json, b: Json)
    requires WellFormed(a) && WellFormed(b) && Meaning(a) == Meaning(b)
    ensures Canonical(a) == Canonical(b)
    decreases a
  {
    match a
    case Arr(items) =>
      forall i | 0 <= i < |items| ensures Canonical(items[i]) == Canonical(b.items[i]) {
        assert Meaning(items[i]) == Meaning(a).items[i] == Meaning(b).items[i];
        MeaningDeterminesCanonical(items[i], b.items[i]);
      }
    case Obj(members) =>
      MeaningOfMembers(members);
      MeaningOfMembers(b.members);
      forall k | k in Keys(members)
        ensures k in Keys(b.members)
        ensures Canonical(members[IndexOf(members, k)].value) == Canonical(b.members[IndexOf(b.members, k)].value)
      {
        var i, j := IndexOf(members, k), IndexOf(b.members, k);
        assert members[i].key == k == b.members[j].key;
        MeaningDeterminesCanonical(members[i].value, b.members[j].value);
      }
      SameKeysSamePick(a, b);
    case _ =>
  }

  lemma SameKeysSamePick(a: Json, b: Json)
    requires a.Obj? && b.Obj? && DistinctKeys(a.members) && DistinctKeys(b.members)
    requires forall k :: k in Keys(a.members) <==> k in Keys(b.members)
    requires forall k :: k in Keys(a.members) ==>
      Canonical(a.members[IndexOf(a.members, k)].value) == Canonical(b.members[IndexOf(b.members, k)].value)
    ensures Canonical(a) == Canonical(b)
  {
    SortedKeysOf(a.members);
    SortedKeysOf(b.members);
    assert KeySet(Keys(a.members)) == KeySet(Keys(b.members));
    SortedUnique(SortKeys(Keys(a.members)), SortKeys(Keys(b.members)));
    assert Pick(a, SortKeys(Keys(a.members))) == Pick(b, SortKeys(Keys(b.members)));
  }

  /** The text given to the HMAC. */
  function SignedText(v: Json): Text {
    Print(Canonical(v))
  }

  /** The signed text is an unambiguous encoding: two values have the same text
      exactly when they are equal up to the order of object keys at every depth. */
  lemma SignedTextUnambiguous(a: Json, b: Json)
    requires WellFormed(a) && WellFormed(b)
    ensures SignedText(a) == SignedText(b) <==> Meaning(a) == Meaning(b)
  {
    CanonicalKeepsMeaning(a);
    CanonicalKeepsMeaning(b);
    PrintInjective(Canonical(a), Canonical(b));
    if Meaning(a) == Meaning(b) { MeaningDeterminesCanonical(a, b); }
  }

  /** Sorting what is sorted changes nothing. */
  lemma CanonicalIdempotent(v: Json)
    requires WellFormed(v)
    ensures Canonical(Canonical(v)) == Canonical(v)
  {
    CanonicalKeepsMeaning(v);
    MeaningDeterminesCanonical(Canonical(v), v);
  }

  /** `canonicalize` as it runs: recursion, and a loop that fills the new object. */
  method Canonicalize(value: Json) returns (r: Json)
    ensures r == Canonical(value)
    ensures WellFormed(value) ==> KeysAscend(r)
    decreases value
  {
    if WellFormed(value) { CanonicalAscends(value); }
    match value
    case Arr(items) =>
      var mapped := [];
      for i := 0 to |items|
        invariant mapped == seq(i, k requires 0 <= k < i => Canonical(items[k]))
      {
        var item := Canonicalize(items[i]);
        mapped := mapped + [item];
      }
      r := Arr(mapped);
    case Obj(members) =>
      var keys := SortKeys(Keys(members));
      SortKeysKeep(Keys(members));
      var sorted := [];
      for i := 0 to |keys|
        invariant sorted == Pick(value, keys[..i])
      {
        var item := Canonicalize(members[IndexOf(members, keys[i])].value);
        sorted := sorted + [Member(keys[i], item)];
        assert keys[..i + 1][..i] == keys[..i];
      }
      assert keys[..|keys|] == keys;
      r := Obj(sorted);
    case _ => r := value;
  }
}
