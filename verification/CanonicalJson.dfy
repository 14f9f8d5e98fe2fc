/** `JSON.stringify(payload, Object.keys(payload).sort())`: which parts of a payload the audit
    digest sees, and in which order. */
module CanonicalJson {
  import opened Strings
  import opened JsonText

  /** A JavaScript value: JSON plus `undefined`. Object fields stand in insertion order. */
  datatype Json =
    | Null
    | Undefined
    | Bool(b: bool)
    | Num(n: SafeInt)
    | Str(s: Text)
    | Arr(items: seq<Json>)
    | Obj(fields: seq<Field>)

  datatype Field = Field(key: Text, value: Json)

  function Keys(fields: seq<Field>): set<Text> {
    set f | f in fields :: f.key
  }

  function Find(fields: seq<Field>, key: Text): (r: Option<Json>)
    ensures r.Some? ==> exists i :: 0 <= i < |fields| && fields[i] == Field(key, r.value)
    ensures r.None? <==> key !in Keys(fields)
  {
    if fields == [] then None
    else if fields[0].key == key then Some(fields[0].value)
    else
      var r := Find(fields[1..], key);
      assert r.Some? ==> exists i :: 0 <= i < |fields| && fields[i] == Field(key, r.value) by {
        if r.Some? {
          var i :| 0 <= i < |fields[1..]| && fields[1..][i] == Field(key, r.value);
          assert fields[i + 1] == Field(key, r.value);
        }
      }
      r
  }

  /** The field exists and is not `undefined`, so that it is printed. */
  predicate Has(fields: seq<Field>, key: Text) {
    var r := Find(fields, key);
    r.Some? && r.value != Undefined
  }

  function ValueOf(fields: seq<Field>, key: Text): (v: Json)
    requires Has(fields, key)
    ensures v < Obj(fields)
  {
    var v := Find(fields, key).value;
    assert v < Obj(fields) by {
      var i :| 0 <= i < |fields| && fields[i] == Field(key, v);
      assert fields[i].value < fields[i];
    }
    v
  }

  // ---- the property list ----------------------------------------------------------------

  /** Lexicographic order by code units: the default order of `Array.prototype.sort`. */
  predicate Less(a: Text, b: Text) {
    b != [] && (a == [] || a[0] < b[0] || (a[0] == b[0] && Less(a[1..], b[1..])))
  }

  lemma {:induction false} LessIrreflexive(a: Text)
    ensures !Less(a, a)
  {
    if a != [] { LessIrreflexive(a[1..]); }
  }

  lemma {:induction false} LessTotal(a: Text, b: Text)
    ensures a == b || Less(a, b) || Less(b, a)
    ensures !(Less(a, b) && Less(b, a)) && !Less(a, a)
  {
    LessIrreflexive(a);
    if a != [] && b != [] && a[0] == b[0] {
      LessTotal(a[1..], b[1..]);
      assert a == [a[0]] + a[1..] && b == [b[0]] + b[1..];
    }
  }

  lemma {:induction false} LessTransitive(a: Text, b: Text, c: Text)
    requires Less(a, b) && Less(b, c)
    ensures Less(a, c)
  {
    if a != [] && a[0] == b[0] && b[0] == c[0] {
      LessTransitive(a[1..], b[1..], c[1..]);
    }
  }

  predicate Sorted(keys: seq<Text>) {
    forall i, j :: 0 <= i < j < |keys| ==> Less(keys[i], keys[j])
  }

  function Insert(key: Text, keys: seq<Text>): (r: seq<Text>)
    requires Sorted(keys)
    ensures Sorted(r)
    ensures forall k :: k in r <==> k == key || k in keys
  {
    if keys == [] then [key]
    else if key == keys[0] then keys
    else if Less(key, keys[0]) then
      assert forall j :: 0 <= j < |keys| ==> Less(key, keys[j]) by {
        forall j | 0 < j < |keys| ensures Less(key, keys[j]) {
          LessTransitive(key, keys[0], keys[j]);
        }
      }
      [key] + keys
    else
      LessTotal(key, keys[0]);
      var rest := Insert(key, keys[1..]);
      assert forall j :: 0 <= j < |rest| ==> Less(keys[0], rest[j]) by {
        forall j | 0 <= j < |rest| ensures Less(keys[0], rest[j]) {
          assert rest[j] in rest;
          if rest[j] != key {
            var i :| 0 <= i < |keys[1..]| && keys[1..][i] == rest[j];
            assert keys[i + 1] == rest[j];
          }
        }
      }
      assert forall k :: k in keys <==> k == keys[0] || k in keys[1..];
      [keys[0]] + rest
  }

  /** `Object.keys(payload).sort()` */
  function SortedKeys(fields: seq<Field>): (r: seq<Text>)
    ensures Sorted(r)
    ensures (set k | k in r) == Keys(fields)
  {
    if fields == [] then []
    else
      var rest := SortedKeys(fields[1..]);
      assert forall k :: k in Keys(fields) <==> k == fields[0].key || k in Keys(fields[1..]) by {
        assert forall f :: f in fields <==> f == fields[0] || f in fields[1..];
      }
      assert forall k :: k in rest <==> k in (set x | x in rest);
      Insert(fields[0].key, rest)
  }

  /** There is only one way to sort a set of keys. */
  lemma {:induction false} SortedUnique(a: seq<Text>, b: seq<Text>)
    requires Sorted(a) && Sorted(b)
    requires forall k :: k in a <==> k in b
    ensures a == b
  {
    assert b != [] ==> b[0] in b && b[0] in a;
    if a != [] {
      assert a[0] in a && a[0] in b;
      assert b[0] in b && b[0] in a;
      var i :| 0 <= i < |b| && b[i] == a[0];
      var j :| 0 <= j < |a| && a[j] == b[0];
      LessTotal(a[0], b[0]);
      assert a[0] == b[0];
      LessTotal(a[0], a[0]);
      forall k ensures k in a[1..] <==> k in b[1..] {
        assert k in a[1..] <==> k in a && k != a[0] by { InRest(a, k); }
        assert k in b[1..] <==> k in b && k != b[0] by { InRest(b, k); }
      }
      SortedUnique(a[1..], b[1..]);
      assert a == [a[0]] + a[1..] && b == [b[0]] + b[1..];
    }
  }

  lemma InRest(a: seq<Text>, k: Text)
    requires Sorted(a) && a != []
    ensures k in a[1..] <==> k in a && k != a[0]
  {
    LessTotal(a[0], a[0]);
    if k in a[1..] {
      var i :| 0 <= i < |a[1..]| && a[1..][i] == k;
      assert a[i + 1] == k && Less(a[0], a[i + 1]);
    }
  }

  // ---- serialisation with an array replacer ---------------------------------------------

  /** The names of `allow` that an object prints, in the order of `allow`. */
  function Kept(fields: seq<Field>, allow: seq<Text>): (r: seq<Text>)
    ensures forall k :: k in r <==> k in allow && Has(fields, k)
    ensures Sorted(allow) ==> Sorted(r)
  {
    if allow == [] then []
    else
      var n := |allow| - 1;
      var r := Kept(fields, allow[..n]);
      assert forall k :: k in allow <==> k in allow[..n] || k == allow[n];
      if Has(fields, allow[n]) then
        assert Sorted(allow) ==> forall j :: 0 <= j < |r| ==> Less(r[j], allow[n]) by {
          if Sorted(allow) {
            forall j | 0 <= j < |r| ensures Less(r[j], allow[n]) {
              assert r[j] in r;
              var i :| 0 <= i < n && allow[..n][i] == r[j];
            }
          }
        }
        r + [allow[n]]
      else r
  }

  /** What is left to print once the replacer list has chosen and ordered the members of every
      object. Inside arrays `undefined` prints as `null`. */
  function Select(v: Json, allow: seq<Text>): Tree {
    match v
    case Null => TNull
    case Undefined => TNull
    case Bool(b) => TBool(b)
    case Num(n) => TNum(n)
    case Str(s) => TStr(s)
    case Arr(items) => TArr(seq(|items|, i requires 0 <= i < |items| => Select(items[i], allow)))
    case Obj(fields) =>
      var ks := Kept(fields, allow);
      TObj(seq(|ks|, i requires 0 <= i < |ks| =>
        assert ks[i] in ks;
        Member(ks[i], Select(ValueOf(fields, ks[i]), allow))))
  }

  /** `JSON.stringify(payload, Object.keys(payload).sort())` for an object payload. */
  function Canonical(fields: seq<Field>): Text {
    Print(Select(Obj(fields), SortedKeys(fields)))
  }

  // ---- what the canonical text means ----------------------------------------------------

  /** A value without any order of object members. */
  datatype View =
    | VNull
    | VBool(b: bool)
    | VNum(n: SafeInt)
    | VStr(s: Text)
    | VArr(items: seq<View>)
    | VObj(members: map<Text, View>)

  /** The value as an unordered object tree, without the members, at any depth, whose names are
      not in `allow`. */
  function ViewOf(v: Json, allow: set<Text>): View {
    match v
    case Null => VNull
    case Undefined => VNull
    case Bool(b) => VBool(b)
    case Num(n) => VNum(n)
    case Str(s) => VStr(s)
    case Arr(items) => VArr(seq(|items|, i requires 0 <= i < |items| => ViewOf(items[i], allow)))
    case Obj(fields) => VObj(map k | k in allow && Has(fields, k) :: ViewOf(ValueOf(fields, k), allow))
  }

  ghost predicate Lists(allow: seq<Text>, names: set<Text>) {
    Sorted(allow) && forall k :: k in allow <==> k in names
  }

  /** Selecting and sorting identifies exactly the values that are equal as unordered trees. */
  lemma {:induction false} SelectMatchesView(v: Json, w: Json, p: seq<Text>, q: seq<Text>, a: set<Text>, b: set<Text>)
    requires Lists(p, a) && Lists(q, b)
    ensures Select(v, p) == Select(w, q) <==> ViewOf(v, a) == ViewOf(w, b)
    decreases v
  {
    if v.Arr? && w.Arr? {
      ItemsMatch(v.items, w.items, p, q, a, b);
    } else if v.Obj? && w.Obj? {
      MembersMatch(v.fields, w.fields, p, q, a, b);
    }
  }

  lemma {:induction false} ItemsMatch(
    s: seq<Json>, t: seq<Json>, p: seq<Text>, q: seq<Text>, a: set<Text>, b: set<Text>)
    requires Lists(p, a) && Lists(q, b)
    ensures Select(Arr(s), p) == Select(Arr(t), q) <==> ViewOf(Arr(s), a) == ViewOf(Arr(t), b)
    decreases s
  {
    var ts, tt := Select(Arr(s), p).items, Select(Arr(t), q).items;
    var vs, vt := ViewOf(Arr(s), a).items, ViewOf(Arr(t), b).items;
    if |s| == |t| {
      forall i | 0 <= i < |s| ensures ts[i] == tt[i] <==> vs[i] == vt[i] {
        SelectMatchesView(s[i], t[i], p, q, a, b);
      }
    } else {
      assert |ts| != |tt| && |vs| != |vt|;
    }
  }

  lemma {:induction false} MembersMatch(
    s: seq<Field>, t: seq<Field>, p: seq<Text>, q: seq<Text>, a: set<Text>, b: set<Text>)
    requires Lists(p, a) && Lists(q, b)
    ensures Select(Obj(s), p) == Select(Obj(t), q) <==> ViewOf(Obj(s), a) == ViewOf(Obj(t), b)
    decreases Obj(s), 0
  {
    var ks, kt := Kept(s, p), Kept(t, q);
    if ks == kt {
      forall i | 0 <= i < |ks|
        ensures ks[i] in ks
        ensures Select(ValueOf(s, ks[i]), p) == Select(ValueOf(t, ks[i]), q) <==>
                  ViewOf(ValueOf(s, ks[i]), a) == ViewOf(ValueOf(t, ks[i]), b)
      {
        assert ks[i] in ks;
        SelectMatchesView(ValueOf(s, ks[i]), ValueOf(t, ks[i]), p, q, a, b);
      }
      SameKeysMatch(s, t, p, q, a, b);
    } else {
      OtherKeysDiffer(s, t, p, q, a, b);
    }
  }

  lemma SameKeysMatch(s: seq<Field>, t: seq<Field>, p: seq<Text>, q: seq<Text>, a: set<Text>, b: set<Text>)
    requires Lists(p, a) && Lists(q, b)
    requires Kept(s, p) == Kept(t, q)
    requires forall k :: k in Kept(s, p) ==>
               (Select(ValueOf(s, k), p) == Select(ValueOf(t, k), q) <==>
                ViewOf(ValueOf(s, k), a) == ViewOf(ValueOf(t, k), b))
    ensures Select(Obj(s), p) == Select(Obj(t), q) <==> ViewOf(Obj(s), a) == ViewOf(Obj(t), b)
  {
    ghost var same := forall k :: k in Kept(s, p) ==> Select(ValueOf(s, k), p) == Select(ValueOf(t, k), q);
    SelectedEqual(s, t, p, q);
    ViewedEqual(s, t, p, q, a, b);
    assert same <==> forall k :: k in Kept(s, p) ==> ViewOf(ValueOf(s, k), a) == ViewOf(ValueOf(t, k), b);
  }

  lemma SelectedEqual(s: seq<Field>, t: seq<Field>, p: seq<Text>, q: seq<Text>)
    requires Kept(s, p) == Kept(t, q)
    ensures Select(Obj(s), p) == Select(Obj(t), q) <==>
              forall k :: k in Kept(s, p) ==> Select(ValueOf(s, k), p) == Select(ValueOf(t, k), q)
  {
    var ks := Kept(s, p);
    var ms, mt := Select(Obj(s), p).members, Select(Obj(t), q).members;
    SelectedMembers(s, p);
    SelectedMembers(t, q);
    if ms == mt {
      forall k | k in ks ensures Select(ValueOf(s, k), p) == Select(ValueOf(t, k), q) {
        var i :| 0 <= i < |ks| && ks[i] == k;
        assert ms[i] == mt[i];
      }
    }
  }

  lemma SelectedMembers(s: seq<Field>, p: seq<Text>)
    ensures var ks, ms := Kept(s, p), Select(Obj(s), p).members;
      && |ms| == |ks|
      && forall i :: 0 <= i < |ks| ==> ks[i] in ks && ms[i] == Member(ks[i], Select(ValueOf(s, ks[i]), p))
  {
    var ks := Kept(s, p);
    assert forall i :: 0 <= i < |ks| ==> ks[i] in ks;
  }

  lemma ViewedEqual(s: seq<Field>, t: seq<Field>, p: seq<Text>, q: seq<Text>, a: set<Text>, b: set<Text>)
    requires Lists(p, a) && Lists(q, b)
    requires Kept(s, p) == Kept(t, q)
    ensures ViewOf(Obj(s), a) == ViewOf(Obj(t), b) <==>
              forall k :: k in Kept(s, p) ==> ViewOf(ValueOf(s, k), a) == ViewOf(ValueOf(t, k), b)
  {
    var vs, vt := ViewOf(Obj(s), a).members, ViewOf(Obj(t), b).members;
    ViewedMembers(s, p, a);
    ViewedMembers(t, q, b);
    MapsEqual(vs, vt);
  }

  lemma ViewedMembers(s: seq<Field>, p: seq<Text>, a: set<Text>)
    requires Lists(p, a)
    ensures var vs := ViewOf(Obj(s), a).members;
      && (forall k :: k in vs.Keys <==> k in Kept(s, p))
      && forall k :: k in Kept(s, p) ==> vs[k] == ViewOf(ValueOf(s, k), a)
  {
    ViewedNames(s, p, a);
  }

  lemma MapsEqual(v: map<Text, View>, w: map<Text, View>)
    requires v.Keys == w.Keys
    ensures v == w <==> forall k :: k in v ==> v[k] == w[k]
  {
  }

  lemma OtherKeysDiffer(s: seq<Field>, t: seq<Field>, p: seq<Text>, q: seq<Text>, a: set<Text>, b: set<Text>)
    requires Lists(p, a) && Lists(q, b)
    requires Kept(s, p) != Kept(t, q)
    ensures Select(Obj(s), p) != Select(Obj(t), q) && ViewOf(Obj(s), a) != ViewOf(Obj(t), b)
  {
    SelectedNames(s, p);
    SelectedNames(t, q);
    ViewedNames(s, p, a);
    ViewedNames(t, q, b);
    if forall k :: k in Kept(s, p) <==> k in Kept(t, q) { SortedUnique(Kept(s, p), Kept(t, q)); }
  }

  function Names(members: seq<Member>): seq<Text> {
    seq(|members|, i requires 0 <= i < |members| => members[i].key)
  }

  lemma SelectedNames(s: seq<Field>, p: seq<Text>)
    ensures Names(Select(Obj(s), p).members) == Kept(s, p)
  {
  }

  lemma ViewedNames(s: seq<Field>, p: seq<Text>, a: set<Text>)
    requires Lists(p, a)
    ensures forall k :: k in ViewOf(Obj(s), a).members.Keys <==> k in Kept(s, p)
  {
  }

  /** `i` is where the field with its key stands. */
  predicate IsField(fields: seq<Field>, i: nat) {
    i < |fields| && forall j :: 0 <= j < i ==> fields[j].key != fields[i].key
  }

  lemma {:induction false} FindField(fields: seq<Field>, i: nat)
    requires IsField(fields, i)
    ensures Find(fields, fields[i].key) == Some(fields[i].value)
  {
    if i > 0 {
      assert fields[0].key != fields[i].key;
      FindField(fields[1..], i - 1);
    }
  }

  /** The view of an object has a member for exactly those of its fields whose names are kept and whose
      values are not `undefined`, with the view of the value. */
  lemma ViewOfFields(fields: seq<Field>, allow: set<Text>, key: Text)
    ensures var members := ViewOf(Obj(fields), allow).members;
      && (key in members <==>
            key in allow && exists i: nat ::
              IsField(fields, i) && fields[i].key == key && fields[i].value != Undefined)
      && (forall i: nat :: IsField(fields, i) && fields[i].key == key && key in members ==>
            members[key] == ViewOf(fields[i].value, allow))
  {
    forall i: nat | IsField(fields, i) && fields[i].key == key
      ensures Find(fields, key) == Some(fields[i].value)
    {
      FindField(fields, i);
    }
    if key in Keys(fields) {
      var i := FirstField(fields, key);
      FindField(fields, i);
    }
  }

  lemma {:induction false} FirstField(fields: seq<Field>, key: Text) returns (i: nat)
    requires key in Keys(fields)
    ensures IsField(fields, i) && fields[i].key == key
  {
    if fields[0].key == key {
      i := 0;
    } else {
      var f :| f in fields && f.key == key;
      assert f in fields[1..];
      i := FirstField(fields[1..], key);
      assert forall j :: 0 < j < i + 1 ==> fields[j].key == fields[1..][j - 1].key;
      i := i + 1;
    }
  }

  // ---- what the canonical text reads as -------------------------------------------------

  /** A tree that was read, as a value without any order of object members. */
  function Unordered(t: Tree): View
    decreases t
  {
    match t
    case TNull => VNull
    case TBool(b) => VBool(b)
    case TNum(n) => VNum(n)
    case TStr(s) => VStr(s)
    case TArr(items) => VArr(seq(|items|, i requires 0 <= i < |items| => Unordered(items[i])))
    case TObj(members) => VObj(UnorderedMembers(members))
  }

  function UnorderedMembers(members: seq<Member>): map<Text, View>
    decreases members
  {
    if members == [] then map[]
    else UnorderedMembers(members[1..])[members[0].key := Unordered(members[0].value)]
  }

  /** `a` comes before `b` by code units: it is smaller at the first difference, or `b` continues it. */
  ghost predicate Precedes(a: Text, b: Text) {
    exists k :: PrecedesAt(a, b, k)
  }

  predicate PrecedesAt(a: Text, b: Text, k: int) {
    0 <= k <= |a| && k < |b| && a[..k] == b[..k] && (k < |a| ==> a[k] < b[k])
  }

  /** Every object in the tree names its members in increasing order, each of them once. */
  ghost predicate InOrder(t: Tree)
    decreases t
  {
    match t
    case TArr(items) => forall i :: 0 <= i < |items| ==> InOrder(items[i])
    case TObj(members) =>
      && (forall i, j :: 0 <= i < j < |members| ==> Precedes(members[i].key, members[j].key))
      && (forall i :: 0 <= i < |members| ==> InOrder(members[i].value))
    case _ => true
  }

  lemma {:induction false} LessPrecedes(a: Text, b: Text)
    requires Less(a, b)
    ensures Precedes(a, b)
  {
    if a != [] && a[0] == b[0] {
      LessPrecedes(a[1..], b[1..]);
      var k :| PrecedesAt(a[1..], b[1..], k);
      assert a[..k + 1] == [a[0]] + a[1..][..k] && b[..k + 1] == [b[0]] + b[1..][..k];
      assert PrecedesAt(a, b, k + 1);
    } else {
      assert a[..0] == b[..0];
      assert PrecedesAt(a, b, 0);
    }
  }

  lemma {:induction false} UnorderedMember(members: seq<Member>, i: nat)
    requires i < |members|
    requires forall j :: 0 <= j < i ==> members[j].key != members[i].key
    ensures var m := UnorderedMembers(members);
      members[i].key in m && m[members[i].key] == Unordered(members[i].value)
  {
    if i > 0 {
      assert members[0].key != members[i].key;
      UnorderedMember(members[1..], i - 1);
    }
  }

  lemma {:induction false} UnorderedNames(members: seq<Member>, k: Text)
    ensures k in UnorderedMembers(members) <==> exists i :: 0 <= i < |members| && members[i].key == k
  {
    if members != [] {
      UnorderedNames(members[1..], k);
      if exists i :: 0 <= i < |members| && members[i].key == k {
        var i :| 0 <= i < |members| && members[i].key == k;
        assert i > 0 ==> members[1..][i - 1].key == k;
      }
    }
  }

  /** Selecting keeps exactly what the view of a value keeps, and orders every object. */
  lemma {:induction false} SelectMeaning(v: Json, p: seq<Text>, a: set<Text>)
    requires Lists(p, a)
    ensures Unordered(Select(v, p)) == ViewOf(v, a) && InOrder(Select(v, p))
    decreases v, 1
  {
    if v.Arr? {
      forall i | 0 <= i < |v.items|
        ensures Unordered(Select(v.items[i], p)) == ViewOf(v.items[i], a) && InOrder(Select(v.items[i], p))
      {
        SelectMeaning(v.items[i], p, a);
      }
    } else if v.Obj? {
      SelectedMeaning(v.fields, p, a);
    }
  }

  lemma {:induction false} SelectedMeaning(s: seq<Field>, p: seq<Text>, a: set<Text>)
    requires Lists(p, a)
    ensures Unordered(Select(Obj(s), p)) == ViewOf(Obj(s), a) && InOrder(Select(Obj(s), p))
    decreases Obj(s), 0
  {
    var ks, ms := Kept(s, p), Select(Obj(s), p).members;
    SelectedMembers(s, p);
    forall k | k in ks
      ensures Unordered(Select(ValueOf(s, k), p)) == ViewOf(ValueOf(s, k), a) && InOrder(Select(ValueOf(s, k), p))
    {
      SelectMeaning(ValueOf(s, k), p, a);
    }
    forall i, j | 0 <= i < j < |ms| ensures Precedes(ms[i].key, ms[j].key) {
      LessPrecedes(ks[i], ks[j]);
    }
    MembersInView(s, p, a);
  }

  lemma ReadMemberIn(s: seq<Field>, p: seq<Text>, k: Text)
    requires Sorted(p)
    ensures var u := UnorderedMembers(Select(Obj(s), p).members);
      && (k in u <==> k in Kept(s, p))
      && (k in u ==> u[k] == Unordered(Select(ValueOf(s, k), p)))
  {
    var ks, ms := Kept(s, p), Select(Obj(s), p).members;
    SelectedMembers(s, p);
    UnorderedNames(ms, k);
    assert k in ks <==> exists i :: 0 <= i < |ks| && ks[i] == k;
    if k in ks {
      var i :| 0 <= i < |ks| && ks[i] == k;
      LessIrreflexive(k);
      assert forall j :: 0 <= j < i ==> Less(ks[j], ks[i]) && ms[j].key == ks[j];
      UnorderedMember(ms, i);
    }
  }

  lemma MembersInView(s: seq<Field>, p: seq<Text>, a: set<Text>)
    requires Lists(p, a)
    requires forall k :: k in Kept(s, p) ==> Unordered(Select(ValueOf(s, k), p)) == ViewOf(ValueOf(s, k), a)
    ensures UnorderedMembers(Select(Obj(s), p).members) == ViewOf(Obj(s), a).members
  {
    var u, w := UnorderedMembers(Select(Obj(s), p).members), ViewOf(Obj(s), a).members;
    ViewedMembers(s, p, a);
    forall k
      ensures k in u <==> k in w
      ensures k in u ==> u[k] == w[k]
    {
      ReadMemberIn(s, p, k);
    }
    assert u.Keys == w.Keys;
    MapsEqual(u, w);
  }

  /** What the canonical text of a payload is: JSON text that reads as the payload without the
      members, at any depth, whose names are not top-level keys, with the members of every object in
      increasing order of their code units. */
  lemma CanonicalReadsBack(p: seq<Field>)
    ensures var r := Read(Canonical(p));
      r.Reads? && r.rest == [] && Unordered(r.value) == ViewOf(Obj(p), Keys(p)) && InOrder(r.value)
  {
    var a := SortedKeys(p);
    assert forall k :: k in a <==> k in (set x | x in a);
    SelectMeaning(Obj(p), a, Keys(p));
    ReadPrint(Select(Obj(p), a), []);
    assert Canonical(p) + [] == Canonical(p);
  }

  /** Two object payloads have the same canonical text exactly when they are equal as unordered
      objects once every member, at every depth, is dropped whose name is not a top-level key. */
  lemma CanonicalMeaning(p: seq<Field>, q: seq<Field>)
    ensures Canonical(p) == Canonical(q) <==>
              ViewOf(Obj(p), Keys(p)) == ViewOf(Obj(q), Keys(q))
  {
    var a, b := SortedKeys(p), SortedKeys(q);
    assert forall k :: k in a <==> k in (set x | x in a);
    assert forall k :: k in b <==> k in (set x | x in b);
    SelectMatchesView(Obj(p), Obj(q), a, b, Keys(p), Keys(q));
    if Canonical(p) == Canonical(q) {
      var none: Text := [];
      PrintUnambiguous(Select(Obj(p), a), Select(Obj(q), b), none, none);
    }
  }

  /** Same value when no object's insertion order counts, `undefined` members included. */
  ghost predicate SameUnordered(v: Json, w: Json)
    decreases v
  {
    match v
    case Arr(s) => w.Arr? && |s| == |w.items| && forall i :: 0 <= i < |s| ==> SameUnordered(s[i], w.items[i])
    case Obj(s) =>
      && w.Obj?
      && Keys(s) == Keys(w.fields)
      && (forall k :: k in Keys(s) ==> Has(s, k) == Has(w.fields, k))
      && (forall k :: k in Keys(s) && Has(s, k) && Has(w.fields, k) ==>
            SameUnordered(ValueOf(s, k), ValueOf(w.fields, k)))
    case _ => v == w
  }

  lemma {:induction false} UnorderedSameView(v: Json, w: Json, allow: set<Text>)
    requires SameUnordered(v, w)
    ensures ViewOf(v, allow) == ViewOf(w, allow)
    decreases v
  {
    match v {
      case Arr(s) =>
        forall i | 0 <= i < |s| ensures ViewOf(s[i], allow) == ViewOf(w.items[i], allow) {
          UnorderedSameView(s[i], w.items[i], allow);
        }
      case Obj(s) =>
        forall k | k in allow && Has(s, k)
          ensures Has(w.fields, k) && ViewOf(ValueOf(s, k), allow) == ViewOf(ValueOf(w.fields, k), allow)
        {
          assert k in Keys(s);
          UnorderedSameView(ValueOf(s, k), ValueOf(w.fields, k), allow);
        }
        forall k | k in allow && Has(w.fields, k) ensures Has(s, k) {
          assert k in Keys(w.fields);
        }
      case _ =>
    }
  }

  /** Insertion order, at any depth, never reaches the canonical text. */
  lemma KeyOrderInvariance(p: seq<Field>, q: seq<Field>)
    requires SameUnordered(Obj(p), Obj(q))
    ensures Canonical(p) == Canonical(q)
  {
    UnorderedSameView(Obj(p), Obj(q), Keys(p));
    CanonicalMeaning(p, q);
  }

  /** The value without the members, at any depth and in any position, whose names are not in
      `allow`; everything else stays in place. */
  function Prune(v: Json, allow: set<Text>): Json
    decreases v
  {
    match v
    case Arr(items) => Arr(seq(|items|, i requires 0 <= i < |items| => Prune(items[i], allow)))
    case Obj(fields) => Obj(PruneFields(fields, allow))
    case _ => v
  }

  function PruneFields(fields: seq<Field>, allow: set<Text>): seq<Field>
    decreases fields
  {
    if fields == [] then []
    else
      (if fields[0].key in allow then [Field(fields[0].key, Prune(fields[0].value, allow))] else [])
      + PruneFields(fields[1..], allow)
  }

  lemma {:induction false} PrunedFind(fields: seq<Field>, allow: set<Text>, key: Text)
    requires key in allow
    ensures var r := Find(fields, key);
      Find(PruneFields(fields, allow), key) == if r.Some? then Some(Prune(r.value, allow)) else None
  {
    if fields != [] {
      PrunedFind(fields[1..], allow, key);
      FindCons(fields[0].key, Prune(fields[0].value, allow), PruneFields(fields[1..], allow), key);
    }
  }

  lemma FindCons(k: Text, v: Json, rest: seq<Field>, key: Text)
    ensures Find([Field(k, v)] + rest, key) == if k == key then Some(v) else Find(rest, key)
    ensures [] + rest == rest
  {
    assert ([Field(k, v)] + rest)[1..] == rest;
  }

  lemma PrunedValue(fields: seq<Field>, allow: set<Text>, key: Text)
    requires key in allow
    ensures Has(PruneFields(fields, allow), key) == Has(fields, key)
    ensures Has(fields, key) ==> ValueOf(PruneFields(fields, allow), key) == Prune(ValueOf(fields, key), allow)
  {
    PrunedFind(fields, allow, key);
  }

  lemma SameMembersSameView(s: seq<Field>, t: seq<Field>, allow: set<Text>)
    requires forall k :: k in allow ==> Has(s, k) == Has(t, k)
    requires forall k :: k in allow && Has(s, k) && Has(t, k) ==>
               ViewOf(ValueOf(s, k), allow) == ViewOf(ValueOf(t, k), allow)
    ensures ViewOf(Obj(s), allow) == ViewOf(Obj(t), allow)
  {
  }

  lemma {:induction false} PruneKeepsView(v: Json, allow: set<Text>)
    ensures ViewOf(Prune(v, allow), allow) == ViewOf(v, allow)
    decreases v, 1
  {
    if v.Arr? {
      forall i | 0 <= i < |v.items| ensures ViewOf(Prune(v.items[i], allow), allow) == ViewOf(v.items[i], allow) {
        PruneKeepsView(v.items[i], allow);
      }
    } else if v.Obj? {
      PruneKeepsMembers(v.fields, allow);
    }
  }

  lemma {:induction false} PruneKeepsMembers(fields: seq<Field>, allow: set<Text>)
    ensures ViewOf(Obj(PruneFields(fields, allow)), allow) == ViewOf(Obj(fields), allow)
    decreases Obj(fields), 0
  {
    var pruned := PruneFields(fields, allow);
    forall k | k in allow
      ensures Has(pruned, k) == Has(fields, k)
      ensures Has(fields, k) ==> ViewOf(ValueOf(pruned, k), allow) == ViewOf(ValueOf(fields, k), allow)
    {
      PrunedValue(fields, allow, k);
      if Has(fields, k) { PruneKeepsView(ValueOf(fields, k), allow); }
    }
    SameMembersSameView(pruned, fields, allow);
  }

  lemma {:induction false} PruneKeepsKeys(fields: seq<Field>, allow: set<Text>)
    requires Keys(fields) <= allow
    ensures Keys(PruneFields(fields, allow)) == Keys(fields)
  {
    forall k ensures k in Keys(PruneFields(fields, allow)) <==> k in Keys(fields) {
      if k in allow {
        PrunedFind(fields, allow, k);
      } else {
        PrunedNames(fields, allow, k);
        assert k !in Keys(fields);
      }
    }
  }

  lemma {:induction false} PrunedNames(fields: seq<Field>, allow: set<Text>, key: Text)
    requires key !in allow
    ensures key !in Keys(PruneFields(fields, allow))
  {
    if fields != [] { PrunedNames(fields[1..], allow, key); }
  }

  /** Members whose names are not top-level keys never reach the canonical text, whatever they hold,
      at any depth, in any position and any number of them: dropping them all changes nothing. */
  lemma NestedOnlyKeysAreInvisible(p: seq<Field>)
    ensures Canonical(PruneFields(p, Keys(p))) == Canonical(p)
  {
    PruneKeepsKeys(p, Keys(p));
    PruneKeepsView(Obj(p), Keys(p));
    CanonicalMeaning(PruneFields(p, Keys(p)), p);
  }

  /** One such member: a nested object's last one may hold anything. */
  lemma NestedMemberIsInvisible(outer: Text, nested: seq<Field>, key: Text, x: Json, y: Json)
    requires key != outer
    ensures Canonical([Field(outer, Obj(nested + [Field(key, x)]))])
         == Canonical([Field(outer, Obj(nested + [Field(key, y)]))])
  {
    OtherKeyUnseen(nested, Field(key, x), {outer});
    OtherKeyUnseen(nested, Field(key, y), {outer});
    OneField(outer, Obj(nested + [Field(key, x)]));
    OneField(outer, Obj(nested + [Field(key, y)]));
    CanonicalMeaning([Field(outer, Obj(nested + [Field(key, x)]))], [Field(outer, Obj(nested + [Field(key, y)]))]);
  }

  lemma OneField(outer: Text, v: Json)
    requires v != Undefined
    ensures Keys([Field(outer, v)]) == {outer}
    ensures ViewOf(Obj([Field(outer, v)]), {outer}) == VObj(map[outer := ViewOf(v, {outer})])
  {
    var p := [Field(outer, v)];
    assert p[0] in p;
    assert Find(p, outer) == Some(v);
    assert forall k :: k in {outer} && Has(p, k) <==> k == outer;
  }

  lemma OtherKeyUnseen(fields: seq<Field>, f: Field, allow: set<Text>)
    requires f.key !in allow
    ensures ViewOf(Obj(fields + [f]), allow) == ViewOf(Obj(fields), allow)
  {
    forall k | k in allow
      ensures Has(fields + [f], k) == Has(fields, k)
      ensures Has(fields, k) ==> ValueOf(fields + [f], k) == ValueOf(fields, k)
    {
      FindSnoc(fields, f, k);
    }
  }

  lemma {:induction false} FindSnoc(fields: seq<Field>, f: Field, key: Text)
    requires f.key != key
    ensures Find(fields + [f], key) == Find(fields, key)
  {
    if fields == [] {
      assert (fields + [f])[1..] == fields;
    } else {
      FindSnoc(fields[1..], f, key);
      assert (fields + [f])[1..] == fields[1..] + [f];
    }
  }

  // ---- a sample -------------------------------------------------------------------------

  /** The code units of a text of ASCII characters. */
  function Units(s: string): Text
    requires forall i :: 0 <= i < |s| ==> s[i] < '\U{0080}'
  {
    seq(|s|, i requires 0 <= i < |s| => s[i] as int)
  }

  const OK_KEY: Text := [111, 107]

  /** `{ ok: true }` */
  const SAMPLE: seq<Field> := [Field(OK_KEY, Bool(true))]

  lemma SampleText()
    ensures Canonical(SAMPLE) == Units("{\"ok\":true}")
  {
    SampleTree();
    SamplePrint();
    assert Units("{\"ok\":true}") == [123, 34, 111, 107, 34, 58, 116, 114, 117, 101, 125];
  }

  lemma SampleTree()
    ensures Select(Obj(SAMPLE), SortedKeys(SAMPLE)) == TObj([Member(OK_KEY, TBool(true))])
  {
    assert SAMPLE[1..] == [];
    assert SortedKeys(SAMPLE) == [OK_KEY];
    assert Find(SAMPLE, OK_KEY) == Some(Bool(true));
    assert [OK_KEY][..0] == [];
    assert Kept(SAMPLE, [OK_KEY]) == [OK_KEY];
    SelectedMembers(SAMPLE, [OK_KEY]);
    var members := Select(Obj(SAMPLE), [OK_KEY]).members;
    assert |members| == 1 && members[0] == Member(OK_KEY, TBool(true));
    assert members == [members[0]];
  }

  lemma SamplePrint()
    ensures Print(TObj([Member(OK_KEY, TBool(true))])) == [123, 34, 111, 107, 34, 58, 116, 114, 117, 101, 125]
  {
    var m := Member(OK_KEY, TBool(true));
    assert OK_KEY[1..] == [107] && OK_KEY[1..][1..] == [];
    assert QuoteRest(OK_KEY[1..][1..]) == [QUOTE];
    assert QuoteRest(OK_KEY[1..]) == [107, 34];
    assert QuoteRest(OK_KEY) == [111, 107, 34];
    assert PrintMember(m) == [34, 111, 107, 34, 58, 116, 114, 117, 101];
    assert [m][1..] == [];
  }
}
