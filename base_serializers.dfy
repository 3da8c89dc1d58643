/** `BaseSerializer.__init__`: the optional `fields` and `excludes` keyword
    arguments narrow the serializer's declared field names. */
module BaseSerializers {
  import opened Common

  /** Dictionary keys are unique. */
  predicate Distinct(s: seq<string>)
  {
    forall i, j :: 0 <= i < j < |s| ==> s[i] != s[j]
  }

  /** The names of `s` that are in `names`, in order. */
  function Keep(s: seq<string>, names: set<string>): (r: seq<string>)
    ensures forall x :: x in r <==> x in s && x in names
    ensures Distinct(s) ==> Distinct(r)
  {
    if s == [] then []
    else if s[0] in names then [s[0]] + Keep(s[1..], names)
    else Keep(s[1..], names)
  }

  /** The names of `s` that are not in `names`, in order. */
  function Drop(s: seq<string>, names: set<string>): (r: seq<string>)
    ensures forall x :: x in r <==> x in s && x !in names
    ensures Distinct(s) ==> Distinct(r)
  {
    if s == [] then []
    else if s[0] !in names then [s[0]] + Drop(s[1..], names)
    else Drop(s[1..], names)
  }

  /** `dict.pop(x)` on the key sequence, once `x` is known to be a key. */
  function Remove(s: seq<string>, x: string): (r: seq<string>)
    ensures |r| <= |s|
  {
    if s == [] then []
    else if s[0] == x then s[1..]
    else [s[0]] + Remove(s[1..], x)
  }

  lemma {:induction false} RemoveAfter(a: seq<string>, b: seq<string>, x: string)
    requires x !in a
    ensures Remove(a + [x] + b, x) == a + b
  {
    if a == [] {
      assert a + [x] + b == [x] + b;
    } else {
      assert (a + [x] + b)[1..] == a[1..] + [x] + b;
      RemoveAfter(a[1..], b, x);
      assert a + b == [a[0]] + (a[1..] + b);
    }
  }

  /** Popping a remaining key from what is left after dropping `names`
      is dropping one more name. */
  lemma {:induction false} RemoveFromDrop(s: seq<string>, names: set<string>, x: string)
    requires Distinct(s) && x in s && x !in names
    ensures Remove(Drop(s, names), x) == Drop(s, names + {x})
  {
    if s[0] == x {
      assert x !in s[1..];
      DropNotIn(s[1..], names, x);
    } else {
      assert Distinct(s[1..]);
      RemoveFromDrop(s[1..], names, x);
    }
  }

  lemma {:induction false} DropNotIn(s: seq<string>, names: set<string>, x: string)
    requires x !in s
    ensures Drop(s, names + {x}) == Drop(s, names)
  {
    if s != [] {
      assert s[0] != x;
      DropNotIn(s[1..], names, x);
    }
  }

  lemma {:induction false} KeepPrefix(s: seq<string>, i: nat, names: set<string>)
    requires i < |s|
    ensures Keep(s[..i + 1], names) == Keep(s[..i], names) + (if s[i] in names then [s[i]] else [])
  {
    if i == 0 {
      assert s[..1] == [s[0]];
      assert s[..0] == [];
    } else {
      assert s[..i + 1][1..] == s[1..][..i];
      assert s[..i][1..] == s[1..][..i - 1];
      KeepPrefix(s[1..], i - 1, names);
    }
  }

  predicate TruthyList(o: Option<seq<string>>)
  {
    o.Some? && o.value != []
  }

  function SetOf(s: seq<string>): (r: set<string>)
    ensures forall x :: x in r <==> x in s
  {
    set x | x in s
  }

  /** The field names once `fields` has been applied: the declared names that
      are allowed, in declared order; an absent or empty `fields` keeps all. */
  function AfterFields(declared: seq<string>, fields: Option<seq<string>>): seq<string>
  {
    if TruthyList(fields) then Keep(declared, SetOf(fields.value)) else declared
  }

  /** `__init__`'s narrowing: the `fields` loop, then the `excludes` loop;
      an absent or empty argument skips its loop. */
  method RestrictFields(declared: seq<string>, fields: Option<seq<string>>, excludes: Option<seq<string>>)
    returns (r: Result<seq<string>>)
    requires Distinct(declared)
    ensures !TruthyList(excludes) ==> r == Ok(AfterFields(declared, fields))
    ensures TruthyList(excludes) ==> (r.Ok? <==> ExcludesPoppable(AfterFields(declared, fields), excludes.value))
    ensures TruthyList(excludes) && r.Ok? ==> r.value == Drop(AfterFields(declared, fields), SetOf(excludes.value))
    ensures r.Err? ==> r.error == KeyNotFound
  {
    var current := declared;
    if TruthyList(fields) {
      current := PopDisallowed(declared, SetOf(fields.value));
    }
    if TruthyList(excludes) {
      r := PopExcluded(current, excludes.value);
    } else {
      r := Ok(current);
    }
  }

  /** `for field_name in existing - allowed: self.fields.pop(field_name)`:
      the names outside `allowed` are popped one by one, the others stay in order. */
  method PopDisallowed(declared: seq<string>, allowed: set<string>) returns (current: seq<string>)
    requires Distinct(declared)
    ensures current == Keep(declared, allowed)
  {
    current := declared;
    var i := 0;
    while i < |declared|
      invariant 0 <= i <= |declared|
      invariant current == Keep(declared[..i], allowed) + declared[i..]
    {
      PopStep(declared, i, allowed);
      if declared[i] !in allowed {
        current := Remove(current, declared[i]);
      }
      i := i + 1;
    }
    assert declared[..i] == declared;
  }

  /** One turn of the `fields` loop: popping a disallowed name, or keeping an
      allowed one, extends the kept prefix by one name. */
  lemma PopStep(declared: seq<string>, i: nat, allowed: set<string>)
    requires Distinct(declared) && i < |declared|
    ensures var current := Keep(declared[..i], allowed) + declared[i..];
            Keep(declared[..i + 1], allowed) + declared[i + 1..]
              == if declared[i] in allowed then current else Remove(current, declared[i])
  {
    KeepPrefix(declared, i, allowed);
    var done := Keep(declared[..i], allowed);
    assert done + declared[i..] == done + [declared[i]] + declared[i + 1..] by {
      assert declared[i..] == [declared[i]] + declared[i + 1..];
    }
    if declared[i] !in allowed {
      assert declared[i] !in done by {
        assert forall k :: 0 <= k < i ==> declared[..i][k] != declared[i];
      }
      RemoveAfter(done, declared[i + 1..], declared[i]);
    }
  }

  /** `for field_name in excludes: self.fields.pop(field_name)`: a name that
      is not, or no longer, a field raises KeyError. */
  method PopExcluded(kept: seq<string>, ex: seq<string>) returns (r: Result<seq<string>>)
    requires Distinct(kept)
    ensures r.Ok? <==> ExcludesPoppable(kept, ex)
    ensures r.Ok? ==> r.value == Drop(kept, SetOf(ex))
    ensures r.Err? ==> r.error == KeyNotFound
  {
    var current := kept;
    var j := 0;
    assert SetOf(ex[..0]) == {};
    DropNothing(kept);
    while j < |ex|
      invariant 0 <= j <= |ex|
      invariant ExcludesPoppable(kept, ex[..j])
      invariant current == Drop(kept, SetOf(ex[..j]))
    {
      ExcludeStep(kept, ex, j);
      if ex[j] !in current {
        assert !ExcludesPoppable(kept, ex[..j + 1]);
        NotPoppablePrefix(kept, ex, j + 1);
        return Err(KeyNotFound);
      }
      current := Remove(current, ex[j]);
      j := j + 1;
    }
    assert ex[..j] == ex;
    r := Ok(current);
  }

  /** Every name of `ex` is a field and none is listed twice: each `pop` finds its key. */
  predicate ExcludesPoppable(kept: seq<string>, ex: seq<string>)
  {
    Distinct(ex) && forall k :: 0 <= k < |ex| ==> ex[k] in kept
  }

  /** One more `pop`: it succeeds exactly when the name is still a field. */
  lemma ExcludeStep(kept: seq<string>, ex: seq<string>, j: nat)
    requires Distinct(kept) && j < |ex| && ExcludesPoppable(kept, ex[..j])
    ensures ex[j] in Drop(kept, SetOf(ex[..j])) <==> ExcludesPoppable(kept, ex[..j + 1])
    ensures ex[j] in Drop(kept, SetOf(ex[..j])) ==>
              Remove(Drop(kept, SetOf(ex[..j])), ex[j]) == Drop(kept, SetOf(ex[..j + 1]))
  {
    var p := ex[..j + 1];
    assert p == ex[..j] + [ex[j]];
    assert SetOf(p) == SetOf(ex[..j]) + {ex[j]};
    if ex[j] in Drop(kept, SetOf(ex[..j])) {
      assert ex[j] !in ex[..j];
      forall a, b | 0 <= a < b < |p| ensures p[a] != p[b] {
        if b == j {
          assert p[a] == ex[..j][a];
        } else {
          assert p[a] == ex[..j][a] && p[b] == ex[..j][b];
        }
      }
      RemoveFromDrop(kept, SetOf(ex[..j]), ex[j]);
    }
  }

  lemma NotPoppablePrefix(kept: seq<string>, ex: seq<string>, n: nat)
    requires n <= |ex| && !ExcludesPoppable(kept, ex[..n])
    ensures !ExcludesPoppable(kept, ex)
  {
  }

  lemma DropNothing(s: seq<string>)
    ensures Drop(s, {}) == s
  {
  }

  /** The field set `__init__` leaves: the declared names that `fields`
      allows (all, without it), minus `excludes`. */
  lemma RestrictedNames(declared: seq<string>, fields: Option<seq<string>>, ex: seq<string>, x: string)
    ensures x in Drop(AfterFields(declared, fields), SetOf(ex)) <==>
              x in declared && (TruthyList(fields) ==> x in fields.value) && x !in ex
  {
  }
}
