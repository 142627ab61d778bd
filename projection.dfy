/**
 * `objCopy` (utils.js): copies an object keeping only the fields named by a list of
 * `.`-separated key paths, skipping falsy values.  `copyObjField` is modelled on values:
 * it returns the accumulator it updates, which is what the source's in-place mutation
 * leaves behind, because the accumulator passed in is always the object it returns.
 */
module Projection {
  import opened Json

  // ---------------------------------------------------------------------------------
  // `key.split('.')` and its inverse

  /** `s.split('.')`: the pieces between dots; never empty, and no piece contains a dot. */
  function Split(s: string): (parts: seq<string>)
    ensures |parts| >= 1
    ensures forall i :: 0 <= i < |parts| ==> '.' !in parts[i]
    decreases |s|
  {
    if s == [] then [""]
    else
      var rest := Split(s[1..]);
      if s[0] == '.' then [""] + rest else [[s[0]] + rest[0]] + rest[1..]
  }

  /** `parts.join('.')` */
  function Join(parts: seq<string>): string
    requires |parts| >= 1
  {
    if |parts| == 1 then parts[0] else parts[0] + "." + Join(parts[1..])
  }

  /** Joining the pieces of a split gives the key back. */
  lemma {:induction false} JoinSplit(s: string)
    ensures Join(Split(s)) == s
    decreases |s|
  {
    if s != [] {
      var rest := Split(s[1..]);
      JoinSplit(s[1..]);
      if s[0] == '.' {
        assert Split(s) == [""] + rest;
        assert s == "." + s[1..];
      } else {
        var parts := Split(s);
        assert parts == [[s[0]] + rest[0]] + rest[1..];
        if |rest| == 1 {
          assert Join(parts) == [s[0]] + rest[0];
        } else {
          assert parts[1..] == rest[1..];
          calc {
            Join(parts);
            ([s[0]] + rest[0]) + "." + Join(rest[1..]);
            [s[0]] + (rest[0] + "." + Join(rest[1..]));
            [s[0]] + Join(rest);
          }
        }
        assert s == [s[0]] + s[1..];
      }
    }
  }

  /** Splitting a dot-free prefix in front of some text glues the prefix onto the first piece. */
  lemma {:induction false} SplitDotFreePrefix(a: string, t: string)
    requires '.' !in a
    ensures Split(a + t) == [a + Split(t)[0]] + Split(t)[1..]
    decreases |a|
  {
    if a != [] {
      SplitDotFreePrefix(a[1..], t);
      assert (a + t)[1..] == a[1..] + t;
      assert (a + t)[0] == a[0];
      assert [a[0]] + (a[1..] + Split(t)[0]) == a + Split(t)[0];
    } else {
      assert a + t == t;
      assert a + Split(t)[0] == Split(t)[0];
      assert Split(t) == [Split(t)[0]] + Split(t)[1..];
    }
  }

  /** Splitting a join of dot-free pieces gives the pieces back. */
  lemma {:induction false} SplitJoin(parts: seq<string>)
    requires |parts| >= 1
    requires forall i :: 0 <= i < |parts| ==> '.' !in parts[i]
    ensures Split(Join(parts)) == parts
  {
    if |parts| == 1 {
      SplitDotFreePrefix(parts[0], "");
      assert parts[0] + "" == parts[0];
    } else {
      var tail := "." + Join(parts[1..]);
      SplitJoin(parts[1..]);
      assert Split(tail) == [""] + parts[1..] by {
        assert tail[1..] == Join(parts[1..]);
      }
      SplitDotFreePrefix(parts[0], tail);
      assert Join(parts) == parts[0] + tail;
      assert parts[0] + "" == parts[0];
    }
  }

  // ---------------------------------------------------------------------------------
  // copyObjField

  /** `o[k] = v`: sets a field of an object; an assignment to a primitive is lost. */
  function Put(o: Value, k: string, v: Value): (r: Value)
    ensures o.Obj? ==> r == Obj(o.fields[k := v])
    ensures !o.Obj? ==> r == o
  {
    if o.Obj? then Obj(o.fields[k := v]) else o
  }

  /** `copyObjField(object, fields, input)`: returns `input` (or a new object when `input`
      is falsy) with the value at path `fields` copied over from `source`, unless some
      value along the path is falsy. */
  function CopyField(source: Value, fields: seq<string>, input: Value): (r: Value)
    ensures |fields| == 0 ==> r == (if Truthy(input) then input else Undefined)
    ensures |fields| >= 1 && (input.Obj? || !Truthy(input)) ==> r.Obj?
    ensures |fields| >= 1 && Truthy(input) && !input.Obj? ==> r == input
    ensures |fields| >= 1 && !Truthy(Get(source, fields[0])) ==> r == (if Truthy(input) then input else Obj(map[]))
    ensures |fields| >= 1 && input.Obj? ==>
              forall k :: k in input.fields && k != fields[0] ==> k in r.fields && r.fields[k] == input.fields[k]
    decreases |fields|
  {
    var o := if Truthy(input) then input else Undefined;
    if |fields| >= 1 then
      var o := if !Truthy(o) then Obj(map[]) else o;
      var top := fields[0];
      var value := Get(source, top);
      if Truthy(value) then
        Put(o, top, if |fields| == 1 then value else CopyField(value, fields[1..], Get(o, top)))
      else o
    else o
  }

  /** The accumulator after the first |keys| iterations of the `for (key in keep)` loop. */
  function Project(source: Value, keys: seq<string>): (r: Value)
    ensures r.Obj? && Truthy(r)
    ensures keys == [] ==> r == Obj(map[])
  {
    if keys == [] then Obj(map[])
    else CopyField(source, Split(keys[|keys| - 1]), Project(source, keys[..|keys| - 1]))
  }

  /** `objCopy(object, keep)`: the for-in loop over the keys of `keep`, in order. */
  method ObjCopy(source: Value, keep: seq<string>) returns (result: Value)
    ensures result == Project(source, keep)
  {
    result := Obj(map[]);
    var i := 0;
    while i < |keep|
      invariant 0 <= i <= |keep|
      invariant result == Project(source, keep[..i])
    {
      result := CopyField(source, Split(keep[i]), result);
      assert keep[..i + 1][..i] == keep[..i];
      i := i + 1;
    }
    assert keep[..|keep|] == keep;
  }

  // ---------------------------------------------------------------------------------
  // What the projection keeps

  /** The paths of `paths` that continue below the field `k`, with `k` taken off. */
  ghost function Below(paths: set<seq<string>>, k: string): set<seq<string>>
  {
    set p | p in paths && |p| >= 2 && p[0] == k :: p[1..]
  }

  /** `r` is an object built from `s` along `paths` only: every field of `r` is the head
      of a listed path, holds a truthy value of `s`, and is either that whole value (when
      the path ends there) or, recursively, an object built from it along the rest of the
      paths. */
  ghost predicate Within(r: Value, s: Value, paths: set<seq<string>>)
    decreases r
  {
    r.Obj? &&
    forall k :: k in r.fields ==>
      Truthy(Get(s, k)) &&
      (([k] in paths && r.fields[k] == Get(s, k)) ||
       (Below(paths, k) != {} && Within(r.fields[k], Get(s, k), Below(paths, k))))
  }

  /** The set of paths a list of keys names. */
  ghost function PathsOf(keys: seq<string>): set<seq<string>>
  {
    set k | k in keys :: Split(k)
  }

  lemma {:induction false} WithinMono(r: Value, s: Value, p: set<seq<string>>, q: set<seq<string>>)
    requires Within(r, s, p) && p <= q
    ensures Within(r, s, q)
    decreases r
  {
    forall k | k in r.fields
      ensures ([k] in q && r.fields[k] == Get(s, k)) ||
              (Below(q, k) != {} && Within(r.fields[k], Get(s, k), Below(q, k)))
    {
      if !([k] in p && r.fields[k] == Get(s, k)) {
        assert Below(p, k) <= Below(q, k);
        WithinMono(r.fields[k], Get(s, k), Below(p, k), Below(q, k));
      }
    }
  }

  /** Copying a value's own path into itself changes nothing (`copyObjField` aliases a
      sub-object it copied whole, and writes its fields back unchanged). */
  lemma {:induction false} CopyIntoSelf(s: Value, p: seq<string>)
    requires Truthy(s) && |p| >= 1
    ensures CopyField(s, p, s) == s
    decreases |p|
  {
    var v := Get(s, p[0]);
    if Truthy(v) {
      assert s.Obj?;
      if |p| > 1 {
        CopyIntoSelf(v, p[1..]);
      }
      assert s.fields[p[0] := v] == s.fields;
    }
  }

  lemma {:induction false} CopyFieldWithin(s: Value, p: seq<string>, r: Value, paths: set<seq<string>>)
    requires |p| >= 1
    requires !Truthy(r) || Within(r, s, paths)
    ensures Within(CopyField(s, p, r), s, paths + {p})
    decreases |p|
  {
    var all := paths + {p};
    var o := if Truthy(r) then r else Obj(map[]);
    assert Within(o, s, paths);
    WithinMono(o, s, paths, all);
    var top := p[0];
    var value := Get(s, top);
    if Truthy(value) {
      var inner := Get(o, top);
      var nv := if |p| == 1 then value else CopyField(value, p[1..], inner);
      var res := Obj(o.fields[top := nv]);
      assert CopyField(s, p, r) == res;
      assert ([top] in all && nv == value) ||
             (Below(all, top) != {} && Within(nv, value, Below(all, top))) by {
        if |p| == 1 {
          assert p == [top];
        } else {
          assert p[1..] in Below(all, top);
          if Truthy(inner) && [top] in paths && inner == value {
            CopyIntoSelf(value, p[1..]);
          } else {
            assert Below(paths, top) + {p[1..]} <= Below(all, top);
            CopyFieldWithin(value, p[1..], inner, Below(paths, top));
            WithinMono(nv, value, Below(paths, top) + {p[1..]}, Below(all, top));
          }
        }
      }
      forall k | k in res.fields
        ensures Truthy(Get(s, k)) &&
          (([k] in all && res.fields[k] == Get(s, k)) ||
           (Below(all, k) != {} && Within(res.fields[k], Get(s, k), Below(all, k))))
      {
        if k != top {
          assert k in o.fields && res.fields[k] == o.fields[k];
        }
      }
    }
  }

  lemma {:induction false} CopyFieldReaches(s: Value, p: seq<string>, r: Value, paths: set<seq<string>>)
    requires |p| >= 1 && Truthy(Lookup(s, p))
    requires !Truthy(r) || Within(r, s, paths)
    ensures Lookup(CopyField(s, p, r), p) == Lookup(s, p)
    decreases |p|
  {
    var o := if Truthy(r) then r else Obj(map[]);
    var top := p[0];
    var value := Get(s, top);
    if |p| == 1 {
      assert Lookup(s, p) == value;
    } else {
      assert Lookup(s, p) == Lookup(value, p[1..]);
      assert Truthy(value);
      var inner := Get(o, top);
      if Truthy(inner) && [top] in paths && inner == value {
        CopyIntoSelf(value, p[1..]);
      } else {
        assert !Truthy(inner) || Within(inner, value, Below(paths, top));
        CopyFieldReaches(value, p[1..], inner, Below(paths, top));
      }
    }
  }

  /** Below a value that is not an object, every path reads undefined. */
  lemma {:induction false} UndefinedLookup(v: Value, p: seq<string>)
    requires !v.Obj? && |p| >= 1
    ensures Lookup(v, p) == Undefined
    decreases |p|
  {
    if |p| > 1 {
      UndefinedLookup(Undefined, p[1..]);
    }
  }

  lemma {:induction false} CopyFieldKeeps(s: Value, p: seq<string>, r: Value, q: seq<string>)
    requires |p| >= 1 && |q| >= 1
    requires Truthy(Lookup(s, q)) && Lookup(r, q) == Lookup(s, q)
    ensures Lookup(CopyField(s, p, r), q) == Lookup(s, q)
    decreases |p|
  {
    assert r.Obj? by {
      if !r.Obj? { UndefinedLookup(r, q); }
    }
    var top := p[0];
    var value := Get(s, top);
    if Truthy(value) && top == q[0] {
      var inner := Get(r, top);
      if |p| > 1 {
        if inner == value {
          CopyIntoSelf(value, p[1..]);
        } else if |q| == 1 {
          assert false;
        } else {
          CopyFieldKeeps(value, p[1..], inner, q[1..]);
        }
      }
    }
  }

  /** The projection is always an object, made of the source's values along the listed
      paths only, with every falsy value left out. */
  lemma {:induction false} ProjectWithin(s: Value, keys: seq<string>)
    ensures Within(Project(s, keys), s, PathsOf(keys))
    decreases |keys|
  {
    if keys != [] {
      var init := keys[..|keys| - 1];
      ProjectWithin(s, init);
      CopyFieldWithin(s, Split(keys[|keys| - 1]), Project(s, init), PathsOf(init));
      assert PathsOf(init) + {Split(keys[|keys| - 1])} == PathsOf(keys) by {
        assert keys == init + [keys[|keys| - 1]];
      }
    }
  }

  /** Every listed path whose value in the source is truthy reads the same value in the
      projection. */
  lemma {:induction false} ProjectCopies(s: Value, keys: seq<string>, k: string)
    requires k in keys && Truthy(Lookup(s, Split(k)))
    ensures Lookup(Project(s, keys), Split(k)) == Lookup(s, Split(k))
    decreases |keys|
  {
    var init := keys[..|keys| - 1];
    var last := keys[|keys| - 1];
    assert keys == init + [last];
    ProjectWithin(s, init);
    if k == last {
      CopyFieldReaches(s, Split(k), Project(s, init), PathsOf(init));
    } else {
      assert k in init;
      ProjectCopies(s, init, k);
      CopyFieldKeeps(s, Split(last), Project(s, init), Split(k));
    }
  }
}
