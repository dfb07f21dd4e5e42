/** Merging the settings file onto the defaults: nested tables, merged key by key. */
module Settings {
  import opened Wrappers

  /** A TOML value: a table, or anything else. */
  datatype Node = Table(entries: map<string, Node>) | Scalar(text: string)

  /** What merging s onto d leaves in d's place; Settings.cpp:52-66. */
  ghost function Over(d: Node, s: Node): (r: Node)
    ensures r.Table? == s.Table?
    decreases s
  {
    if d.Table? && s.Table? then
      Table(map k | k in d.entries.Keys + s.entries.Keys ::
              if k !in s.entries then d.entries[k]
              else if k !in d.entries then s.entries[k]
              else Over(d.entries[k], s.entries[k]))
    else s
  }

  type Path = seq<string>

  /** What following a path comes to. */
  datatype Reach = Found(node: Node) | Absent | Blocked

  /** Absent is a key missing from a table; Blocked is a value in the way that is no table. */
  function Follow(n: Node, p: Path): Reach
    decreases p
  {
    if p == [] then Found(n)
    else if n.Scalar? then Blocked
    else if p[0] !in n.entries then Absent
    else Follow(n.entries[p[0]], p[1..])
  }

  /** The file's value where it has one, merged if both have a table there; nothing below a value
      of the file that is no table; and the default's everywhere else. */
  lemma {:induction false} Lookup(d: Node, s: Node, p: Path)
    requires d.Table? && s.Table?
    ensures match Follow(s, p)
      case Found(n) =>
        Follow(Over(d, s), p) == Found(if Follow(d, p).Found? then Over(Follow(d, p).node, n) else n)
      case Blocked => Follow(Over(d, s), p) == Blocked
      case Absent =>
        match Follow(d, p)
        case Found(n) => Follow(Over(d, s), p) == Found(n)
        case _ => !Follow(Over(d, s), p).Found?
    decreases p
  {
    if p != [] {
      var k := p[0];
      if k in s.entries && k in d.entries {
        if d.entries[k].Table? && s.entries[k].Table? {
          Lookup(d.entries[k], s.entries[k], p[1..]);
        }
      }
    }
  }

  // ---------- merging again ----------

  lemma {:induction false} OverSelf(n: Node)
    ensures Over(n, n) == n
    decreases n
  {
    if n.Table? {
      forall k | k in n.entries ensures Over(n.entries[k], n.entries[k]) == n.entries[k] {
        OverSelf(n.entries[k]);
      }
    }
  }

  /** Merging the same file a second time changes nothing. */
  lemma {:induction false} OverTwice(d: Node, s: Node)
    ensures Over(Over(d, s), s) == Over(d, s)
    decreases s
  {
    OverSelf(s);
    if d.Table? && s.Table? {
      forall k | k in s.entries
        ensures Over(Over(d, s).entries[k], s.entries[k]) == Over(d, s).entries[k]
      {
        if k in d.entries {
          OverTwice(d.entries[k], s.entries[k]);
        } else {
          OverSelf(s.entries[k]);
        }
      }
    }
  }

  // ---------- merging three ----------

  /** c leaves nothing of a: it has every key of a, again and again where both have tables. */
  ghost predicate Covers(c: Node, a: Node)
    decreases a
  {
    c.Table? && a.Table? ==>
      forall k :: k in a.entries ==> k in c.entries && Covers(c.entries[k], a.entries[k])
  }

  lemma {:induction false} CoversExact(c: Node, a: Node)
    ensures Covers(c, a) <==> Over(a, c) == c
    decreases a
  {
    if c.Table? && a.Table? {
      forall k | k in a.entries && k in c.entries
        ensures Covers(c.entries[k], a.entries[k]) <==> Over(a.entries[k], c.entries[k]) == c.entries[k]
      {
        CoversExact(c.entries[k], a.entries[k]);
      }
      if Over(a, c) == c {
        forall k | k in a.entries
          ensures k in c.entries && Over(a.entries[k], c.entries[k]) == c.entries[k]
        {
          assert k in Over(a, c).entries;
        }
      }
    }
  }

  /** Wherever a and c have tables and b something else, c leaves nothing of a's. */
  ghost predicate Associates(a: Node, b: Node, c: Node)
    decreases b
  {
    if a.Table? && b.Table? && c.Table? then
      forall k :: k in a.entries && k in b.entries && k in c.entries ==>
        Associates(a.entries[k], b.entries[k], c.entries[k])
    else a.Table? && c.Table? ==> Covers(c, a)
  }

  /** Merging is associative for three tables if and only if that is so: with a table in a, no
      table in b and a table in c at the same place, one order of merging forgets a's table and
      the other merges it with c's. */
  lemma {:induction false} AssociativeExact(a: Node, b: Node, c: Node)
    ensures Over(Over(a, b), c) == Over(a, Over(b, c)) <==> Associates(a, b, c)
    decreases b
  {
    if a.Table? && b.Table? && c.Table? {
      var l, r := Over(Over(a, b), c), Over(a, Over(b, c));
      assert l.entries.Keys == r.entries.Keys == a.entries.Keys + b.entries.Keys + c.entries.Keys;
      forall k | k in l.entries
        ensures l.entries[k] == r.entries[k] <==>
          !(k in a.entries && k in b.entries && k in c.entries)
          || Associates(a.entries[k], b.entries[k], c.entries[k])
      {
        if k in a.entries && k in b.entries && k in c.entries {
          AssociativeExact(a.entries[k], b.entries[k], c.entries[k]);
        }
      }
      assert l == r <==> forall k :: k in l.entries ==> l.entries[k] == r.entries[k];
    } else if a.Table? && c.Table? {
      CoversExact(c, a);
    }
  }

  /** The same condition by paths. */
  ghost predicate Conflict(a: Node, b: Node, c: Node, p: Path) {
    && Follow(a, p).Found? && Follow(b, p).Found? && Follow(c, p).Found?
    && Follow(a, p).node.Table? && Follow(b, p).node.Scalar? && Follow(c, p).node.Table?
  }

  lemma {:induction false} ConflictsDecide(a: Node, b: Node, c: Node, p: Path)
    requires Associates(a, b, c) && Conflict(a, b, c, p)
    ensures Covers(Follow(c, p).node, Follow(a, p).node)
    decreases p
  {
    if p != [] {
      ConflictsDecide(a.entries[p[0]], b.entries[p[0]], c.entries[p[0]], p[1..]);
    }
  }

  lemma {:induction false} NoConflictAssociates(a: Node, b: Node, c: Node)
    requires forall p :: Conflict(a, b, c, p) ==> Covers(Follow(c, p).node, Follow(a, p).node)
    ensures Associates(a, b, c)
    decreases b
  {
    if a.Table? && b.Table? && c.Table? {
      forall k | k in a.entries && k in b.entries && k in c.entries
        ensures Associates(a.entries[k], b.entries[k], c.entries[k])
      {
        forall p | Conflict(a.entries[k], b.entries[k], c.entries[k], p)
          ensures Covers(Follow(c.entries[k], p).node, Follow(a.entries[k], p).node)
        {
          assert ([k] + p)[1..] == p;
          assert Conflict(a, b, c, [k] + p);
        }
        NoConflictAssociates(a.entries[k], b.entries[k], c.entries[k]);
      }
    } else if a.Table? && c.Table? {
      assert Conflict(a, b, c, []);
    }
  }

  /** Associativity by paths: it holds if and only if at each conflict c covers a. */
  lemma AssociativeByPaths(a: Node, b: Node, c: Node)
    ensures Over(Over(a, b), c) == Over(a, Over(b, c)) <==>
      forall p :: Conflict(a, b, c, p) ==> Covers(Follow(c, p).node, Follow(a, p).node)
  {
    AssociativeExact(a, b, c);
    if Associates(a, b, c) {
      forall p | Conflict(a, b, c, p) ensures Covers(Follow(c, p).node, Follow(a, p).node) {
        ConflictsDecide(a, b, c, p);
      }
    } else if forall p :: Conflict(a, b, c, p) ==> Covers(Follow(c, p).node, Follow(a, p).node) {
      NoConflictAssociates(a, b, c);
    }
  }

  lemma NotAssociative()
    ensures
      var t := (k, n) => Table(map[k := n]);
      var a, b, c := t("x", t("y", Scalar("1"))), t("x", Scalar("2")), t("x", Table(map[]));
      Over(Over(a, b), c) != Over(a, Over(b, c))
  {
    var t := (k, n) => Table(map[k := n]);
    var a, b, c := t("x", t("y", Scalar("1"))), t("x", Scalar("2")), t("x", Table(map[]));
    assert "x" in Over(a, b).entries && "x" in Over(b, c).entries;
    assert "y" in Over(a, Over(b, c)).entries["x"].entries;
  }

  // ---------- the loop ----------

  /** dst with the keys of src merged in, but for those still to do. */
  ghost predicate Merging(dst: map<string, Node>, src: map<string, Node>, todo: set<string>, m: map<string, Node>) {
    && todo <= src.Keys
    && (forall k :: k in m <==> k in dst || (k in src && k !in todo))
    && (forall k :: k in m ==> m[k] == if k in src && k !in todo then OverKey(dst, k, src[k]) else dst[k])
  }

  ghost function OverKey(dst: map<string, Node>, k: string, v: Node): Node {
    if k in dst then Over(dst[k], v) else v
  }

  lemma MergingStep(dst: map<string, Node>, src: map<string, Node>, todo: set<string>, m: map<string, Node>, k: string)
    requires Merging(dst, src, todo, m) && k in todo
    ensures Merging(dst, src, todo - {k}, m[k := OverKey(m, k, src[k])])
  {
    assert k in m <==> k in dst;
  }

  lemma MergingDone(dst: map<string, Node>, src: map<string, Node>, m: map<string, Node>)
    requires Merging(dst, src, {}, m)
    ensures Table(m) == Over(Table(dst), Table(src))
  {
    assert m.Keys == dst.Keys + src.Keys;
  }

  class Toml {
    var entries: map<string, Node>

    constructor (entries: map<string, Node>)
      ensures this.entries == entries
    {
      this.entries := entries;
    }

    /** Settings.cpp:52-66.  The keys of src come in any order. */
    method MergeInto(src: map<string, Node>)
      modifies this
      ensures Table(entries) == Over(Table(old(entries)), Table(src))
      decreases Table(src), 0
    {
      var todo := src.Keys;
      ghost var dst := entries;
      while todo != {}
        invariant Merging(dst, src, todo, entries)
        decreases |todo|
      {
        var k :| k in todo;
        MergingStep(dst, src, todo, entries, k);
        MergeKey(k, src[k]);
        todo := todo - {k};
      }
      MergingDone(dst, src, entries);
    }

    /** One key of the loop. */
    method MergeKey(k: string, v: Node)
      modifies this
      ensures entries == old(entries)[k := OverKey(old(entries), k, v)]
      decreases v, 1
    {
      if v.Table? && k in entries && entries[k].Table? {
        var existing := new Toml(entries[k].entries);
        existing.MergeInto(v.entries);
        entries := entries[k := Table(existing.entries)];
      } else {
        entries := entries[k := v];
      }
    }
  }

  datatype Error = DefaultsParseFailed | FileParseFailed

  /** Settings.cpp:68-91, given what parsing the defaults and the file came to. */
  method Load(defaults: Option<map<string, Node>>, file: Option<map<string, Node>>)
      returns (r: Result<map<string, Node>, Error>)
    ensures r == match defaults
      case None => Failure(DefaultsParseFailed)
      case Some(d) =>
        match file
        case None => Failure(FileParseFailed)
        case Some(f) => Success(Over(Table(d), Table(f)).entries)
  {
    if defaults.None? {
      return Failure(DefaultsParseFailed);
    }
    var cfg := new Toml(defaults.value);
    if file.None? {
      return Failure(FileParseFailed);
    }
    cfg.MergeInto(file.value);
    return Success(cfg.entries);
  }

  /** Loading: every path of the file reads as in the file where that is no table; every default
      still reads unless the file has a value in its way. */
  lemma LoadedSettings(d: map<string, Node>, f: map<string, Node>, p: Path, x: Node)
    requires x.Scalar?
    ensures Follow(Over(Table(d), Table(f)), p) == Found(x) <==>
      || Follow(Table(f), p) == Found(x)
      || (Follow(Table(f), p) == Absent && Follow(Table(d), p) == Found(x))
  {
    Lookup(Table(d), Table(f), p);
  }
}
