/** loadConfigFile and flattenConfig of cmd/psina/config.go: a nested YAML map becomes flat
    lowercased keys. Go visits a map in any order; so do the loops here. */
module Config {
  import opened Entities
  import opened Strings

  type Table = map<string, string>

  datatype Node = Null | Leaf(value: string) | Section(entries: map<string, Node>)

  // ----- leaves -----

  /** A leaf, null or not, is named by the keys that lead to it. */
  predicate LeafAt(n: Node, pos: seq<string>) {
    if pos == [] then !n.Section?
    else n.Section? && pos[0] in n.entries && LeafAt(n.entries[pos[0]], pos[1..])
  }

  function ValueAt(n: Node, pos: seq<string>): Node
    requires LeafAt(n, pos)
  {
    if pos == [] then n else ValueAt(n.entries[pos[0]], pos[1..])
  }

  predicate SetAt(n: Node, pos: seq<string>) {
    LeafAt(n, pos) && ValueAt(n, pos).Leaf?
  }

  /** The dotted path of a leaf as written. */
  function Path(prefix: string, pos: seq<string>): string
    decreases |pos|
  {
    if pos == [] then prefix
    else if |pos| == 1 then prefix + pos[0]
    else Path(prefix + pos[0] + ".", pos[1..])
  }

  function Key(prefix: string, pos: seq<string>): string {
    Lower(Path(prefix, pos))
  }

  /** No two leaves, nulls included, share a lowercased path. */
  ghost predicate Unique(n: Node, prefix: string) {
    forall p, q :: LeafAt(n, p) && LeafAt(n, q) && Key(prefix, p) == Key(prefix, q) ==> p == q
  }

  ghost predicate Fresh(n: Node, prefix: string, spelling: Table) {
    forall p :: LeafAt(n, p) ==> Key(prefix, p) !in spelling
  }

  /** What flattenConfig fills: values and spellings under lowercased paths. */
  datatype Tables = Tables(flat: Table, spelling: Table)

  /** t holds what t0 held and the leaves of n, and nothing else. */
  ghost predicate Flattened(n: Node, prefix: string, t0: Tables, t: Tables) {
    && Unique(n, prefix) && Fresh(n, prefix, t0.spelling)
    && Spelled(n, prefix, t0.spelling, t.spelling) && Stored(n, prefix, t0.flat, t.flat)
  }

  ghost predicate Spelled(n: Node, prefix: string, s0: Table, s: Table) {
    && (forall k :: k in s0 ==> k in s && s[k] == s0[k])
    && (forall p :: LeafAt(n, p) ==> Key(prefix, p) in s && s[Key(prefix, p)] == Path(prefix, p))
    && (forall k :: k in s && k !in s0 ==> IsKey(n, prefix, k))
  }

  ghost predicate Stored(n: Node, prefix: string, f0: Table, f: Table) {
    && (forall k :: k in f0 ==> k in f && f[k] == f0[k])
    && (forall p :: SetAt(n, p) ==> Key(prefix, p) in f && f[Key(prefix, p)] == ValueAt(n, p).value)
    && (forall k :: k in f && k !in f0 ==> IsSetKey(n, prefix, k))
  }

  ghost predicate IsKey(n: Node, prefix: string, k: string) {
    exists p :: LeafAt(n, p) && Key(prefix, p) == k
  }

  ghost predicate IsSetKey(n: Node, prefix: string, k: string) {
    exists p :: SetAt(n, p) && Key(prefix, p) == k
  }

  // ----- one more entry -----

  function With(n: Node, key: string, child: Node): Node
    requires n.Section?
  {
    Section(n.entries[key := child])
  }

  /** The leaves of a section with one more entry: the old ones and those below the new key. */
  lemma LeavesWith(n: Node, prefix: string, key: string, child: Node, p: seq<string>)
    requires n.Section? && key !in n.entries
    ensures LeafAt(With(n, key, child), p) <==> LeafAt(n, p) || Under(key, child, p)
    ensures LeafAt(n, p) ==> p != [] && p[0] != key && ValueAt(With(n, key, child), p) == ValueAt(n, p)
    ensures Under(key, child, p) ==> ValueAt(With(n, key, child), p) == ValueAt(child, p[1..])
    ensures Under(key, child, p) && child.Section? ==> Path(prefix, p) == Path(prefix + key + ".", p[1..])
    ensures Under(key, child, p) && !child.Section? ==> p == [key] && Path(prefix, p) == prefix + key
  {
  }

  predicate Under(key: string, child: Node, p: seq<string>) {
    p != [] && p[0] == key && LeafAt(child, p[1..])
  }

  lemma UnderKey(key: string, child: Node, q: seq<string>)
    requires LeafAt(child, q)
    ensures Under(key, child, [key] + q) && ([key] + q)[1..] == q
  {
    assert ([key] + q)[1..] == q;
  }

  lemma LeafIsSpelled(n: Node, prefix: string, key: string, leaf: Node, s0: Table, s: Table)
    requires n.Section? && key !in n.entries && !leaf.Section? && Spelled(n, prefix, s0, s) && Lower(prefix + key) !in s
    ensures Spelled(With(n, key, leaf), prefix, s0, s[Lower(prefix + key) := prefix + key])
  {
    var n', s' := With(n, key, leaf), s[Lower(prefix + key) := prefix + key];
    forall p | LeafAt(n', p)
      ensures Key(prefix, p) in s' && s'[Key(prefix, p)] == Path(prefix, p)
    {
      LeavesWith(n, prefix, key, leaf, p);
    }
    forall k | k in s' && k !in s0
      ensures IsKey(n', prefix, k)
    {
      if k in s {
        var p :| LeafAt(n, p) && Key(prefix, p) == k;
        LeavesWith(n, prefix, key, leaf, p);
      } else {
        LeavesWith(n, prefix, key, leaf, [key]);
        assert LeafAt(n', [key]);
      }
    }
  }

  lemma LeafIsStored(n: Node, prefix: string, key: string, leaf: Node, f0: Table, f: Table)
    requires n.Section? && key !in n.entries && !leaf.Section? && Stored(n, prefix, f0, f) && Lower(prefix + key) !in f
    ensures Stored(With(n, key, leaf), prefix, f0, if leaf.Leaf? then f[Lower(prefix + key) := leaf.value] else f)
  {
    var n', f' := With(n, key, leaf), if leaf.Leaf? then f[Lower(prefix + key) := leaf.value] else f;
    forall p | SetAt(n', p)
      ensures Key(prefix, p) in f' && f'[Key(prefix, p)] == ValueAt(n', p).value
    {
      LeavesWith(n, prefix, key, leaf, p);
      assert LeafAt(n, p) ==> SetAt(n, p);
    }
    forall k | k in f' && k !in f0
      ensures IsSetKey(n', prefix, k)
    {
      if k in f {
        var p :| SetAt(n, p) && Key(prefix, p) == k;
        LeavesWith(n, prefix, key, leaf, p);
        assert SetAt(n', p);
      } else {
        LeavesWith(n, prefix, key, leaf, [key]);
        assert SetAt(n', [key]);
      }
    }
  }

  lemma AddLeaf(n: Node, prefix: string, key: string, leaf: Node, t0: Tables, t: Tables)
    requires n.Section? && key !in n.entries && !leaf.Section? && t.flat.Keys <= t.spelling.Keys
    requires Flattened(n, prefix, t0, t) && Lower(prefix + key) !in t.spelling
    ensures Flattened(With(n, key, leaf), prefix, t0,
                      Tables(if leaf.Leaf? then t.flat[Lower(prefix + key) := leaf.value] else t.flat,
                             t.spelling[Lower(prefix + key) := prefix + key]))
  {
    LeafIsSpelled(n, prefix, key, leaf, t0.spelling, t.spelling);
    LeafIsStored(n, prefix, key, leaf, t0.flat, t.flat);
    forall p | LeafAt(With(n, key, leaf), p)
      ensures LeafAt(n, p) || (p == [key] && Key(prefix, p) == Lower(prefix + key))
    {
      LeavesWith(n, prefix, key, leaf, p);
    }
  }

  lemma SectionIsSpelled(n: Node, prefix: string, key: string, sub: Node, s0: Table, s: Table, s': Table)
    requires n.Section? && key !in n.entries && sub.Section?
    requires Spelled(n, prefix, s0, s) && Spelled(sub, prefix + key + ".", s, s')
    ensures Spelled(With(n, key, sub), prefix, s0, s')
  {
    var n' := With(n, key, sub);
    forall p | LeafAt(n', p)
      ensures Key(prefix, p) in s' && s'[Key(prefix, p)] == Path(prefix, p)
    {
      LeavesWith(n, prefix, key, sub, p);
    }
    forall k | k in s' && k !in s0
      ensures IsKey(n', prefix, k)
    {
      if k in s {
        var p :| LeafAt(n, p) && Key(prefix, p) == k;
        LeavesWith(n, prefix, key, sub, p);
      } else {
        var q :| LeafAt(sub, q) && Key(prefix + key + ".", q) == k;
        UnderKey(key, sub, q);
        LeavesWith(n, prefix, key, sub, [key] + q);
      }
    }
  }

  lemma SectionIsStored(n: Node, prefix: string, key: string, sub: Node, f0: Table, f: Table, f': Table)
    requires n.Section? && key !in n.entries && sub.Section?
    requires Stored(n, prefix, f0, f) && Stored(sub, prefix + key + ".", f, f')
    ensures Stored(With(n, key, sub), prefix, f0, f')
  {
    var n' := With(n, key, sub);
    forall p | SetAt(n', p)
      ensures Key(prefix, p) in f' && f'[Key(prefix, p)] == ValueAt(n', p).value
    {
      LeavesWith(n, prefix, key, sub, p);
      assert LeafAt(n, p) ==> SetAt(n, p);
      assert Under(key, sub, p) ==> SetAt(sub, p[1..]);
    }
    forall k | k in f' && k !in f0
      ensures IsSetKey(n', prefix, k)
    {
      if k in f {
        var p :| SetAt(n, p) && Key(prefix, p) == k;
        LeavesWith(n, prefix, key, sub, p);
        assert SetAt(n', p);
      } else {
        var q :| SetAt(sub, q) && Key(prefix + key + ".", q) == k;
        UnderKey(key, sub, q);
        LeavesWith(n, prefix, key, sub, [key] + q);
        assert SetAt(n', [key] + q);
      }
    }
  }

  /** Old leaves are spelled in s already; those below the new key are not. */
  lemma OldOrBelow(n: Node, prefix: string, key: string, sub: Node, s0: Table, s: Table, p: seq<string>)
    requires n.Section? && key !in n.entries && sub.Section?
    requires Spelled(n, prefix, s0, s) && Fresh(sub, prefix + key + ".", s) && LeafAt(With(n, key, sub), p)
    ensures if Key(prefix, p) in s then LeafAt(n, p)
            else Under(key, sub, p) && p == [key] + p[1..] && Key(prefix, p) == Key(prefix + key + ".", p[1..])
  {
    LeavesWith(n, prefix, key, sub, p);
  }

  lemma UniqueWith(n: Node, prefix: string, key: string, sub: Node, s0: Table, s: Table)
    requires n.Section? && key !in n.entries && sub.Section?
    requires Unique(n, prefix) && Fresh(n, prefix, s0) && Spelled(n, prefix, s0, s)
    requires Unique(sub, prefix + key + ".") && Fresh(sub, prefix + key + ".", s)
    ensures Unique(With(n, key, sub), prefix) && Fresh(With(n, key, sub), prefix, s0)
  {
    forall p, q | LeafAt(With(n, key, sub), p) && LeafAt(With(n, key, sub), q) && Key(prefix, p) == Key(prefix, q)
      ensures p == q
    {
      OldOrBelow(n, prefix, key, sub, s0, s, p);
      OldOrBelow(n, prefix, key, sub, s0, s, q);
    }
    forall p | LeafAt(With(n, key, sub), p)
      ensures Key(prefix, p) !in s0
    {
      OldOrBelow(n, prefix, key, sub, s0, s, p);
    }
  }

  lemma AddSection(n: Node, prefix: string, key: string, sub: Node, t0: Tables, t: Tables, t': Tables)
    requires n.Section? && key !in n.entries && sub.Section?
    requires Flattened(n, prefix, t0, t) && Flattened(sub, prefix + key + ".", t, t')
    ensures Flattened(With(n, key, sub), prefix, t0, t')
  {
    SectionIsSpelled(n, prefix, key, sub, t0.spelling, t.spelling, t'.spelling);
    SectionIsStored(n, prefix, key, sub, t0.flat, t.flat, t'.flat);
    UniqueWith(n, prefix, key, sub, t0.spelling, t.spelling);
  }

  // ----- a clash -----

  ghost predicate Partial(part: Node, full: Node) {
    && part.Section? && full.Section?
    && forall k :: k in part.entries ==> k in full.entries && full.entries[k] == part.entries[k]
  }

  lemma PartialLeaf(part: Node, full: Node, p: seq<string>)
    requires Partial(part, full) && LeafAt(part, p)
    ensures LeafAt(full, p)
  {
  }

  /** A lowercased path already spelled, by an earlier entry or before, is a clash in the whole. */
  lemma SpelledClashes(full: Node, part: Node, prefix: string, t0: Tables, t: Tables, p: seq<string>)
    requires Partial(part, full) && Flattened(part, prefix, t0, t)
    requires LeafAt(full, p) && p != [] && p[0] !in part.entries && Key(prefix, p) in t.spelling
    ensures !(Unique(full, prefix) && Fresh(full, prefix, t0.spelling))
  {
    if Key(prefix, p) !in t0.spelling {
      var q :| LeafAt(part, q) && Key(prefix, q) == Key(prefix, p);
      PartialLeaf(part, full, q);
      assert q[0] in part.entries;
    }
  }

  lemma SubsectionClashes(full: Node, part: Node, prefix: string, key: string, t0: Tables, t: Tables)
    requires Partial(part, full) && Flattened(part, prefix, t0, t)
    requires key in full.entries && key !in part.entries && full.entries[key].Section?
    requires !(Unique(full.entries[key], prefix + key + ".") && Fresh(full.entries[key], prefix + key + ".", t.spelling))
    ensures !(Unique(full, prefix) && Fresh(full, prefix, t0.spelling))
  {
    var sub, below := full.entries[key], prefix + key + ".";
    if !Unique(sub, below) {
      var p, q :| LeafAt(sub, p) && LeafAt(sub, q) && Key(below, p) == Key(below, q) && p != q;
      Rooted(full, prefix, key, p);
      Rooted(full, prefix, key, q);
      assert [key] + p != [key] + q by { assert ([key] + p)[1..] == p && ([key] + q)[1..] == q; }
    } else {
      var p :| LeafAt(sub, p) && Key(below, p) in t.spelling;
      Rooted(full, prefix, key, p);
      SpelledClashes(full, part, prefix, t0, t, [key] + p);
    }
  }

  lemma Rooted(full: Node, prefix: string, key: string, p: seq<string>)
    requires full.Section? && key in full.entries && full.entries[key].Section? && LeafAt(full.entries[key], p)
    ensures LeafAt(full, [key] + p) && Key(prefix, [key] + p) == Key(prefix + key + ".", p)
  {
    assert ([key] + p)[1..] == p && p != [];
  }

  // ----- the code -----

  /** The two maps flattenConfig fills. */
  class Flattener {
    var flat: Table
    var spelling: Table

    ghost function Both(): Tables
      reads this
    {
      Tables(flat, spelling)
    }

    constructor ()
      ensures flat == map[] && spelling == map[]
    {
      flat, spelling := map[], map[];
    }

    /** Succeeds, in every order of visiting, exactly when no lowercased path repeats, and then
        has added exactly the leaves of the section. */
    method Flatten(section: Node, prefix: string) returns (ok: bool)
      requires section.Section? && flat.Keys <= spelling.Keys
      modifies this
      ensures ok <==> Unique(section, prefix) && Fresh(section, prefix, old(spelling))
      ensures ok ==> Flattened(section, prefix, old(Both()), Both()) && flat.Keys <= spelling.Keys
      decreases section
    {
      var todo := section.entries.Keys;
      ghost var part := Section(map[]);
      while todo != {}
        invariant todo <= section.entries.Keys
        invariant part == Section(map k | k in section.entries && k !in todo :: section.entries[k])
        invariant flat.Keys <= spelling.Keys
        invariant Flattened(part, prefix, old(Both()), Both())
        decreases |todo|
      {
        var key :| key in todo;
        todo := todo - {key};
        var value := section.entries[key];
        ghost var before := Both();
        var path := prefix + key;
        if value.Section? {
          var fits := Flatten(value, path + ".");
          if !fits {
            SubsectionClashes(section, part, prefix, key, old(Both()), before);
            return false;
          }
          AddSection(part, prefix, key, value, old(Both()), before, Both());
        } else {
          var lower := Lower(path);
          if lower in spelling {
            assert LeafAt(section, [key]) && Key(prefix, [key]) == lower;
            SpelledClashes(section, part, prefix, old(Both()), before, [key]);
            return false;
          }
          AddLeaf(part, prefix, key, value, old(Both()), before);
          spelling := spelling[lower := path];
          if value != Null {
            flat := flat[lower := value.value];
          }
        }
        part := With(part, key, value);
      }
      assert part == section;
      return true;
    }
  }

  function IndexDot(s: string, from: nat): int
    requires from <= |s|
    decreases |s| - from
  {
    if from == |s| then -1 else if s[from] == '.' then from else IndexDot(s, from + 1)
  }

  /** The next dot after position i, or -1. */
  function NextDot(key: string, i: nat): (j: int)
    requires i < |key|
    ensures j == -1 || i < j < |key|
  {
    IndexDotFinds(key, i + 1);
    IndexDot(key, i + 1)
  }

  lemma {:induction false} IndexDotFinds(s: string, from: nat)
    requires from <= |s|
    ensures var j := IndexDot(s, from);
            if j == -1 then forall k :: from <= k < |s| ==> s[k] != '.'
            else from <= j < |s| && s[j] == '.' && forall k :: from <= k < j ==> s[k] != '.'
    decreases |s| - from
  {
    if from < |s| { IndexDotFinds(s, from + 1); }
  }

  ghost predicate NoAncestorOf(flat: Table, key: string) {
    forall i :: 0 <= i < |key| && key[i] == '.' ==> key[..i] !in flat
  }

  /** No key of the flat map is a dotted ancestor of another. */
  ghost predicate PrefixFree(flat: Table) {
    forall key :: key in flat ==> NoAncestorOf(flat, key)
  }

  method CheckAncestors(flat: Table) returns (ok: bool)
    ensures ok <==> PrefixFree(flat)
  {
    var todo := flat.Keys;
    while todo != {}
      invariant todo <= flat.Keys
      invariant forall key :: key in flat && key !in todo ==> NoAncestorOf(flat, key)
      decreases |todo|
    {
      var key :| key in todo;
      todo := todo - {key};
      IndexDotFinds(key, 0);
      var i := IndexDot(key, 0);
      while i >= 0
        invariant -1 <= i < |key|
        invariant i >= 0 ==> key[i] == '.'
        invariant forall j :: 0 <= j < (if i >= 0 then i else |key|) && key[j] == '.' ==> key[..j] !in flat
        decreases if i >= 0 then |key| - i else 0
      {
        if key[..i] in flat {
          return false;
        }
        IndexDotFinds(key, i + 1);
        i := NextDot(key, i);
      }
    }
    return true;
  }

  /** No non-null leaf's lowercased path is a dotted ancestor of another's. */
  ghost predicate NoKeyIsASection(n: Node) {
    forall p, q :: SetAt(n, p) && SetAt(n, q) ==> !(Key("", p) + "." <= Key("", q))
  }

  /** The flat form of a file: its non-null leaves under their lowercased paths. */
  ghost predicate IsFlatOf(n: Node, flat: Table) {
    && (forall p :: SetAt(n, p) ==> Key("", p) in flat && flat[Key("", p)] == ValueAt(n, p).value)
    && (forall k :: k in flat ==> IsSetKey(n, "", k))
  }

  lemma AncestorIsPrefix(a: string, b: string)
    ensures a + "." <= b <==> |a| < |b| && b[|a|] == '.' && b[..|a|] == a
  {
    if |a| < |b| && b[|a|] == '.' && b[..|a|] == a {
      assert a + "." == b[..|a| + 1];
    }
    if a + "." <= b {
      assert b[|a|] == (a + ".")[|a|];
      assert b[..|a|] == (a + ".")[..|a|];
    }
  }

  lemma PrefixFreeMeansNoSection(n: Node, flat: Table)
    requires IsFlatOf(n, flat)
    ensures PrefixFree(flat) <==> NoKeyIsASection(n)
  {
    if PrefixFree(flat) {
      forall p, q | SetAt(n, p) && SetAt(n, q)
        ensures !(Key("", p) + "." <= Key("", q))
      {
        assert NoAncestorOf(flat, Key("", q));
        AncestorIsPrefix(Key("", p), Key("", q));
      }
    } else {
      var key, i :| key in flat && 0 <= i < |key| && key[i] == '.' && key[..i] in flat;
      AncestorIsPrefix(key[..i], key);
      assert IsSetKey(n, "", key) && IsSetKey(n, "", key[..i]);
    }
  }

  /** The path of a leaf is its keys joined by dots. */
  lemma {:induction false} PathJoins(prefix: string, p: seq<string>, q: seq<string>)
    requires p != [] && q != []
    ensures Path(prefix, p + q) == Path(prefix, p) + "." + Path("", q)
    ensures |p| == 1 ==> Path(prefix, p) == prefix + p[0]
    decreases |p|
  {
    assert (p + q)[1..] == p[1..] + q;
    if |p| == 1 {
      assert (p + q)[1..] == q;
      PrefixComesFirst(prefix + p[0] + ".", q);
    } else {
      PathJoins(prefix + p[0] + ".", p[1..], q);
    }
  }

  lemma {:induction false} PrefixComesFirst(prefix: string, q: seq<string>)
    requires q != []
    ensures Path(prefix, q) == prefix + Path("", q)
    decreases |q|
  {
    if |q| > 1 {
      PrefixComesFirst(prefix + q[0] + ".", q[1..]);
      PrefixComesFirst("" + q[0] + ".", q[1..]);
      assert prefix + q[0] + "." + Path("", q[1..]) == prefix + ("" + q[0] + "." + Path("", q[1..]));
    } else {
      assert "" + q[0] == q[0];
    }
  }

  /** A file loads, whatever order its maps are visited in, exactly when no two of its leaves
      lowercase to one path and no key is also a section; the result is then its flat form, and
      that form is lowercased and prefix-free. */
  method LoadConfigFile(raw: Node) returns (r: Option<Table>)
    requires raw.Section?
    ensures r.Some? <==> Unique(raw, "") && NoKeyIsASection(raw)
    ensures r.Some? ==> IsFlatOf(raw, r.value) && PrefixFree(r.value)
    ensures r.Some? ==> forall k, i :: k in r.value && 0 <= i < |k| ==> !('A' <= k[i] <= 'Z')
  {
    var flattener := new Flattener();
    var ok := flattener.Flatten(raw, "");
    if !ok {
      return None;
    }
    var flat := flattener.flat;
    assert IsFlatOf(raw, flat);
    PrefixFreeMeansNoSection(raw, flat);
    ok := CheckAncestors(flat);
    if !ok {
      return None;
    }
    forall k, i | k in flat && 0 <= i < |k|
      ensures !('A' <= k[i] <= 'Z')
    {
      var p :| SetAt(raw, p) && Key("", p) == k;
      LowerFolds(Path("", p));
    }
    return Some(flat);
  }

  /** So the result does not depend on the order: a file has at most one flat form. */
  lemma FlatFormIsUnique(n: Node, f: Table, g: Table)
    requires Unique(n, "") && IsFlatOf(n, f) && IsFlatOf(n, g)
    ensures f == g
  {
    forall k | k in f
      ensures k in g && g[k] == f[k]
    {
      var p :| SetAt(n, p) && Key("", p) == k;
    }
    forall k | k in g
      ensures k in f
    {
      var p :| SetAt(n, p) && Key("", p) == k;
    }
  }
}
