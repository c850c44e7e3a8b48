/** JSON values as application/json_parser.cpp holds them, without floating-point numbers. */
module Json {
  import opened Options

  /** An object lists its members as std::map iterates over them: by strictly increasing key. */
  datatype Value =
    | Null
    | Bool(b: bool)
    | Int(n: int)
    | String(text: string)
    | Array(items: seq<Value>)
    | Object(members: seq<Member>)

  datatype Member = Member(key: string, value: Value)

  /** operator< of std::string. */
  predicate Less(a: string, b: string) {
    b != [] && (a == [] || a[0] < b[0] || (a[0] == b[0] && Less(a[1..], b[1..])))
  }

  /** obj[key] = value: a new member in its place, or a new value for an old one. */
  function Insert(ms: seq<Member>, key: string, value: Value): seq<Member> {
    if ms == [] || Less(key, ms[0].key) then [Member(key, value)] + ms
    else if key == ms[0].key then [Member(key, value)] + ms[1..]
    else [ms[0]] + Insert(ms[1..], key, value)
  }

  ghost predicate SortedKeys(ms: seq<Member>) {
    forall i, j | 0 <= i < j < |ms| :: Less(ms[i].key, ms[j].key)
  }

  lemma {:induction false} LessTransitive(a: string, b: string, c: string)
    requires Less(a, b) && Less(b, c)
    ensures Less(a, c)
  {
    if a != [] && a[0] == b[0] && b[0] == c[0] { LessTransitive(a[1..], b[1..], c[1..]); }
  }

  lemma {:induction false} LessTotal(a: string, b: string)
    ensures Less(a, b) || a == b || Less(b, a)
    ensures !(Less(a, b) && (a == b || Less(b, a)))
  {
    if a != [] && b != [] && a[0] == b[0] {
      LessTotal(a[1..], b[1..]);
      assert a == [a[0]] + a[1..] && b == [b[0]] + b[1..];
    }
  }

  lemma {:induction false} InsertSorted(ms: seq<Member>, key: string, value: Value)
    requires SortedKeys(ms)
    ensures SortedKeys(Insert(ms, key, value))
    ensures forall m | m in Insert(ms, key, value) :: m == Member(key, value) || m in ms
    ensures Insert(ms, key, value) != []
  {
    if ms == [] {
    } else if Less(key, ms[0].key) {
      forall j | 0 < j < |ms| ensures Less(key, ms[j].key) { LessTransitive(key, ms[0].key, ms[j].key); }
    } else if key != ms[0].key {
      LessTotal(key, ms[0].key);
      InsertSorted(ms[1..], key, value);
      var rest := Insert(ms[1..], key, value);
      forall j | 0 <= j < |rest| ensures Less(ms[0].key, rest[j].key) {
        assert rest[j] == Member(key, value) || rest[j] in ms[1..];
      }
    }
  }

  // ----- An object is the map of its bindings -----

  /** The last of the given bindings of a key. */
  function LastBinding(ms: seq<Member>, key: string): Option<Value> {
    if ms == [] then None
    else if LastBinding(ms[1..], key).Some? then LastBinding(ms[1..], key)
    else if ms[0].key == key then Some(ms[0].value) else None
  }

  /** The object that results from assigning members one after another. */
  function Assign(done: seq<Member>, ms: seq<Member>): seq<Member>
    decreases |ms|
  {
    if ms == [] then done else Assign(Insert(done, ms[0].key, ms[0].value), ms[1..])
  }

  predicate Binds(ms: seq<Member>, key: string, value: Value) {
    Member(key, value) in ms
  }

  lemma {:induction false} InsertBinds(ms: seq<Member>, key: string, value: Value, k: string, v: Value)
    requires SortedKeys(ms)
    ensures Binds(Insert(ms, key, value), k, v) <==> if k == key then v == value else Binds(ms, k, v)
  {
    if ms == [] {
    } else if Less(key, ms[0].key) {
      if k == key { Fresh(ms, key); }
    } else if key == ms[0].key {
      assert ms == [ms[0]] + ms[1..];
      forall j | 0 < j < |ms| ensures ms[j].key != key { LessTotal(ms[0].key, ms[j].key); }
    } else {
      InsertBinds(ms[1..], key, value, k, v);
      assert ms == [ms[0]] + ms[1..];
    }
  }

  lemma Fresh(ms: seq<Member>, key: string)
    requires SortedKeys(ms) && ms != [] && Less(key, ms[0].key)
    ensures forall m | m in ms :: m.key != key
  {
    forall j | 0 <= j < |ms| ensures ms[j].key != key {
      if j > 0 { LessTransitive(key, ms[0].key, ms[j].key); }
      LessTotal(key, ms[j].key);
    }
  }

  /** Assigning members one after another yields the map of last bindings. */
  lemma {:induction false} AssignKeepsLast(done: seq<Member>, ms: seq<Member>, k: string, v: Value)
    requires SortedKeys(done)
    ensures SortedKeys(Assign(done, ms))
    ensures Binds(Assign(done, ms), k, v) <==>
              if LastBinding(ms, k).Some? then LastBinding(ms, k) == Some(v) else Binds(done, k, v)
    decreases |ms|
  {
    if ms != [] {
      InsertSorted(done, ms[0].key, ms[0].value);
      InsertBinds(done, ms[0].key, ms[0].value, k, v);
      AssignKeepsLast(Insert(done, ms[0].key, ms[0].value), ms[1..], k, v);
    }
  }

  /** Sorted member lists with the same bindings are the same list. */
  lemma {:induction false} SortedMembersUnique(a: seq<Member>, b: seq<Member>)
    requires SortedKeys(a) && SortedKeys(b)
    requires forall m :: m in a <==> m in b
    ensures a == b
  {
    assert b == [] || b[0] in a;
    if a != [] {
      assert a[0] in b;
      assert b[0] in a;
      var i :| 0 <= i < |b| && b[i] == a[0];
      var j :| 0 <= j < |a| && a[j] == b[0];
      LessTotal(a[0].key, b[0].key);
      assert a[0] == b[0];
      forall m ensures m in a[1..] <==> m in b[1..] {
        if m == a[0] {
          forall x | 0 < x < |a| ensures a[x] != a[0] { LessTotal(a[0].key, a[x].key); }
          forall x | 0 < x < |b| ensures b[x] != b[0] { LessTotal(b[0].key, b[x].key); }
        }
        assert m in a <==> m == a[0] || m in a[1..];
        assert m in b <==> m == b[0] || m in b[1..];
      }
      SortedMembersUnique(a[1..], b[1..]);
      assert a == [a[0]] + a[1..] && b == [b[0]] + b[1..];
    }
  }

  /** The order of assignments to different keys does not matter: only the last binding of each key does. */
  lemma SameLastBindingsSameObject(a: seq<Member>, b: seq<Member>)
    requires forall k :: LastBinding(a, k) == LastBinding(b, k)
    ensures Assign([], a) == Assign([], b)
  {
    forall m: Member ensures m in Assign([], a) <==> m in Assign([], b) {
      AssignKeepsLast([], a, m.key, m.value);
      AssignKeepsLast([], b, m.key, m.value);
      assert m == Member(m.key, m.value);
      assert LastBinding(a, m.key) == LastBinding(b, m.key);
    }
    AssignKeepsLast([], a, [], Null);
    AssignKeepsLast([], b, [], Null);
    SortedMembersUnique(Assign([], a), Assign([], b));
  }
}
