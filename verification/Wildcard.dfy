/** The trie that maps logger namespaces to levels, with the wildcards * (one
    section) and ** (any number of sections). */
module Wildcard {
  import opened Common

  /** Levels are integers; -1 marks a node without one. */
  type Level = int

  const UNKNOWN: Level := -1
  const DISABLED: Level := 0

  const STAR := "*"
  const STARS := "**"

  datatype Node = Node(level: Level, name: string, children: map<string, Node>)

  type Names = seq<string>

  /** The level for the remaining sections below a node, if there is one. */
  function Lookup(n: Node, names: Names): Option<Level>
    decreases n, |names| + 1
  {
    if names == [] then
      var node := if n.level == UNKNOWN && STARS in n.children then n.children[STARS] else n;
      if node.level != UNKNOWN then Some(node.level) else None
    else
      var exact := Child(n, names[0], names[1..]);
      if exact.Some? then exact
      else
        var skipping := if n.name == STARS then SkipFrom(n, names, 0) else None;
        if skipping.Some? then skipping
        else if n.name == STARS && n.level != UNKNOWN then Some(n.level)
        else
          var one := Child(n, STAR, names[1..]);
          if one.Some? then one else Child(n, STARS, names)
  }

  function Child(n: Node, key: string, names: Names): Option<Level>
    decreases n, 0
  {
    if key in n.children then Lookup(n.children[key], names) else None
  }

  /** The search below ** for a section that a child of the node names. */
  function SkipFrom(n: Node, names: Names, i: nat): Option<Level>
    requires i <= |names|
    decreases n, |names| - i
  {
    if i == |names| then None
    else
      var r := Child(n, names[i], names[i + 1..]);
      if r.Some? then r else SkipFrom(n, names, i + 1)
  }

  // -----------------------------------------------------------------------
  // What patterns mean
  // -----------------------------------------------------------------------

  /** * stands for one section, ** for any number of sections, and any other section
      for itself. */
  predicate Matches(p: Names, names: Names)
    decreases |p| + |names|
  {
    if p == [] then names == []
    else if p[0] == STARS then Matches(p[1..], names) || (names != [] && Matches(p, names[1..]))
    else names != [] && (p[0] == STAR || p[0] == names[0]) && Matches(p[1..], names[1..])
  }

  /** The level configured for a pattern below a node. */
  function LevelAt(n: Node, p: Names): Level {
    if p == [] then n.level
    else if p[0] in n.children then LevelAt(n.children[p[0]], p[1..])
    else UNKNOWN
  }

  /** Every node knows the section that leads to it. */
  predicate Named(n: Node) {
    forall k | k in n.children :: n.children[k].name == k && Named(n.children[k])
  }

  /** What a node has already taken of a pattern that is still to be matched: a **
      node is entered without consuming any section. */
  function Under(n: Node): Names {
    if n.name == STARS then [STARS] else []
  }

  lemma {:induction false} StarsSkip(p: Names, names: Names, i: nat)
    requires i <= |names| && Matches(p, names[i..])
    ensures Matches([STARS] + p, names)
  {
    assert ([STARS] + p)[1..] == p;
    if i == 0 {
      assert names[0..] == names;
    } else {
      assert names[1..][i - 1..] == names[i..];
      StarsSkip(p, names[1..], i - 1);
    }
  }

  lemma {:induction false} StarsSkipped(p: Names, names: Names) returns (i: nat)
    requires Matches([STARS] + p, names)
    ensures i <= |names| && Matches(p, names[i..])
    decreases |names|
  {
    assert ([STARS] + p)[1..] == p;
    if Matches(p, names) {
      i := 0;
      assert names[0..] == names;
    } else {
      var j := StarsSkipped(p, names[1..]);
      assert names[1..][j..] == names[j + 1..];
      i := j + 1;
    }
  }

  /** Taking one more section into account: from a child's pattern to its parent's. */
  lemma ChildMatches(n: Node, key: string, q: Names, names: Names, i: nat)
    requires key in n.children && n.children[key].name == key && i <= |names|
    requires Matches(Under(n.children[key]) + q, names[i..])
    requires key == STARS || (i > 0 && (key == STAR || key == names[i - 1]))
    ensures var from := if key == STARS then i else i - 1; Matches([key] + q, names[from..])
  {
    if key != STARS {
      assert names[i - 1..][1..] == names[i..] && ([key] + q)[1..] == q && [] + q == q;
    }
  }

  lemma {:induction false} SkipFinds(n: Node, names: Names, i: nat) returns (j: nat)
    requires i <= |names| && SkipFrom(n, names, i).Some?
    ensures i <= j < |names| && SkipFrom(n, names, i) == Child(n, names[j], names[j + 1..])
    decreases |names| - i
  {
    if Child(n, names[i], names[i + 1..]).Some? {
      j := i;
    } else {
      j := SkipFinds(n, names, i + 1);
    }
  }

  lemma WithUnder(n: Node, q: Names, names: Names, i: nat)
    requires i <= |names| && Matches(q, names[i..]) && (n.name == STARS || i == 0)
    ensures Matches(Under(n) + q, names)
  {
    if n.name == STARS {
      StarsSkip(q, names, i);
    } else {
      assert names[0..] == names && [] + q == q;
    }
  }

  /** A child's success, seen from its parent. */
  lemma {:induction false} ChildIsSound(n: Node, key: string, names: Names, i: nat) returns (q: Names)
    requires Named(n) && i <= |names| && Child(n, key, names[i..]).Some?
    requires key == STARS || (i > 0 && (key == STAR || key == names[i - 1]))
    requires n.name == STARS || i <= 1
    ensures LevelAt(n, q) == Child(n, key, names[i..]).value != UNKNOWN
    ensures Matches(Under(n) + q, names)
    decreases n, 0
  {
    var r := LookupIsSound(n.children[key], names[i..]);
    ChildMatches(n, key, r, names, i);
    q := [key] + r;
    assert q[1..] == r;
    var from := if key == STARS then i else i - 1;
    if key == STARS && i == 1 && n.name != STARS {
      StarsOneMore(r, names);
      assert names[0..] == names;
      WithUnder(n, q, names, 0);
    } else {
      WithUnder(n, q, names, from);
    }
  }

  lemma StarsOneMore(r: Names, names: Names)
    requires names != [] && Matches([STARS] + r, names[1..])
    ensures Matches([STARS] + r, names)
  {
  }

  /** Whatever the configuration, a level that is found belongs to a pattern that
      matches. */
  lemma {:induction false} LookupIsSound(n: Node, names: Names) returns (q: Names)
    requires Named(n) && Lookup(n, names).Some?
    ensures LevelAt(n, q) == Lookup(n, names).value != UNKNOWN
    ensures Matches(Under(n) + q, names)
    decreases n, 1
  {
    if names == [] {
      if n.level == UNKNOWN && STARS in n.children {
        q := [STARS];
        assert Matches(Under(n) + q, names) by {
          assert Matches([STARS], []);
          WithUnder(n, q, names, 0);
        }
      } else {
        q := [];
        WithUnder(n, q, names, 0);
      }
    } else if Child(n, names[0], names[1..]).Some? {
      q := ChildIsSound(n, names[0], names, 1);
    } else if n.name == STARS && SkipFrom(n, names, 0).Some? {
      var j := SkipFinds(n, names, 0);
      q := ChildIsSound(n, names[j], names, j + 1);
    } else if n.name == STARS && n.level != UNKNOWN {
      q := [];
      assert names[|names|..] == [];
      StarsSkip([], names, |names|);
    } else if Child(n, STAR, names[1..]).Some? {
      q := ChildIsSound(n, STAR, names, 1);
    } else {
      assert names[0..] == names;
      q := ChildIsSound(n, STARS, names, 0);
    }
  }

  // -----------------------------------------------------------------------
  // What exactly is found
  // -----------------------------------------------------------------------

  /** A namespace has no section that is itself a wildcard. */
  predicate Plain(names: Names) {
    STAR !in names && STARS !in names
  }

  predicate Wild(name: string) { name == STAR || name == STARS }

  /** What a pattern amounts to in the search: a ** directly before a wildcard takes
      no section, except that two ** at the end take at least one. */
  function Effective(p: Names): Names {
    if |p| <= 1 then p
    else if p == [STARS, STARS] then [STAR, STARS]
    else if p[0] == STARS && Wild(p[1]) then Effective(p[1..])
    else [p[0]] + Effective(p[1..])
  }

  lemma EffectiveCons(key: string, r: Names)
    requires key != STARS || (r != [] && !Wild(r[0]))
    ensures Effective([key] + r) == [key] + Effective(r)
  {
    assert ([key] + r)[1..] == r;
  }

  lemma EffectiveStars(r: Names)
    requires r != [] && Wild(r[0]) && r != [STARS]
    ensures Effective([STARS] + r) == Effective(r)
  {
    assert ([STARS] + r)[1..] == r;
  }

  /** A ** before a section that is no wildcard skips to an occurrence of it. */
  lemma StarsReach(q: Names, names: Names) returns (i: nat)
    requires q != [] && !Wild(q[0]) && Matches(Effective([STARS] + q), names)
    ensures i < |names| && names[i] == q[0] && Matches(Effective(q[1..]), names[i + 1..])
  {
    EffectiveCons(STARS, q);
    i := StarsSkipped(Effective(q), names);
    assert q == [q[0]] + q[1..];
    EffectiveCons(q[0], q[1..]);
    assert names[i..][1..] == names[i + 1..];
  }

  lemma StarsReached(q: Names, names: Names, i: nat)
    requires q != [] && !Wild(q[0])
    requires i < |names| && names[i] == q[0] && Matches(Effective(q[1..]), names[i + 1..])
    ensures Matches(Effective([STARS] + q), names)
  {
    assert q == [q[0]] + q[1..];
    EffectiveCons(q[0], q[1..]);
    assert names[i..][1..] == names[i + 1..];
    StarsSkip(Effective(q), names, i);
    EffectiveCons(STARS, q);
  }

  /** Before another wildcard ** takes nothing. */
  lemma StarsIdle(q: Names, names: Names)
    requires q != [] && Wild(q[0]) && names != []
    ensures Matches(Effective([STARS] + q), names) <==> Matches(Effective(q), names)
  {
    if q == [STARS] {
      assert [STARS] + q == [STARS, STARS];
      assert [STAR, STARS][1..] == [STARS];
      StarsMatchAll(names[1..]);
      StarsMatchAll(names);
    } else {
      EffectiveStars(q);
    }
  }

  lemma StarsMatchAll(names: Names)
    ensures Matches([STARS], names)
  {
    assert names[|names|..] == [];
    StarsSkip([], names, |names|);
  }

  lemma OneSection(q: Names, names: Names)
    requires q != [] && q[0] != STARS && names != []
    ensures Matches(Effective(q), names) <==>
      (q[0] == STAR || q[0] == names[0]) && Matches(Effective(q[1..]), names[1..])
  {
    assert q == [q[0]] + q[1..];
    EffectiveCons(q[0], q[1..]);
  }

  lemma {:induction false} EffectiveOfNothing(q: Names)
    ensures Matches(Effective(q), []) <==> q == [] || q == [STARS]
  {
    if |q| > 1 && q != [STARS, STARS] && q[0] == STARS && Wild(q[1]) {
      EffectiveOfNothing(q[1..]);
    } else if |q| > 1 && q[0] == STARS && q != [STARS, STARS] {
      assert q == [STARS] + q[1..] && q[1..] == [q[1]] + q[2..];
      EffectiveCons(STARS, q[1..]);
      EffectiveCons(q[1], q[2..]);
    }
  }

  lemma {:induction false} SkipReaches(n: Node, names: Names, i: nat, j: nat)
    requires i <= j < |names| && Child(n, names[j], names[j + 1..]).Some?
    ensures SkipFrom(n, names, i).Some?
    decreases j - i
  {
    if i < j {
      SkipReaches(n, names, i + 1, j);
    }
  }

  /** Whenever the effective form of a pattern matches a plain namespace, a level is
      found. */
  lemma {:induction false} LookupIsComplete(n: Node, q: Names, names: Names)
    requires Named(n) && Plain(names) && (n.name == STARS ==> names != [])
    requires LevelAt(n, q) != UNKNOWN && Matches(Effective(Under(n) + q), names)
    ensures Lookup(n, names).Some?
    decreases n
  {
    assert [] + q == q;
    if names == [] {
      EffectiveOfNothing(q);
    } else if n.name == STARS && q == [] {
    } else if n.name == STARS && !Wild(q[0]) {
      var i := StarsReach(q, names);
      assert [] + q[1..] == q[1..];
      LookupIsComplete(n.children[q[0]], q[1..], names[i + 1..]);
      SkipReaches(n, names, 0, i);
    } else {
      if n.name == STARS {
        StarsIdle(q, names);
      }
      ChildIsComplete(n, q, names);
    }
  }

  lemma {:induction false} ChildIsComplete(n: Node, q: Names, names: Names)
    requires Named(n) && Plain(names) && names != [] && q != []
    requires LevelAt(n, q) != UNKNOWN && Matches(Effective(q), names)
    ensures Lookup(n, names).Some?
    decreases n, 0
  {
    var c, rest := n.children[q[0]], q[1..];
    if q[0] == STARS {
      assert [STARS] + rest == q;
      LookupIsComplete(c, rest, names);
    } else {
      OneSection(q, names);
      assert [] + rest == rest;
      LookupIsComplete(c, rest, names[1..]);
    }
  }

  /** The pattern of a child's success, seen from its parent. */
  lemma EffectiveParent(n: Node, key: string, r: Names, names: Names, i: nat)
    requires key in n.children && n.children[key].name == key && i <= |names| && names != []
    requires Matches(Effective(Under(n.children[key]) + r), names[i..])
    requires if key == STARS then i == 0 else i > 0 && (key == STAR || key == names[i - 1])
    requires i <= 1 || (n.name == STARS && !Wild(key))
    ensures Matches(Effective(Under(n) + ([key] + r)), names)
  {
    var q := [key] + r;
    assert q[1..] == r && [] + r == r && [] + q == q;
    if n.name == STARS && !Wild(key) {
      StarsReached(q, names, i - 1);
    } else {
      assert Matches(Effective(q), names) by {
        WildOrFirst(q, names, i);
      }
      if n.name == STARS {
        StarsIdle(q, names);
      }
    }
  }

  lemma WildOrFirst(q: Names, names: Names, i: nat)
    requires q != [] && names != [] && i == if q[0] == STARS then 0 else 1
    requires q[0] == STARS || q[0] == STAR || q[0] == names[0]
    requires Matches(Effective(if q[0] == STARS then q else q[1..]), names[i..])
    ensures Matches(Effective(q), names)
  {
    if q[0] == STARS {
      assert names[0..] == names;
    } else {
      OneSection(q, names);
    }
  }

  /** The level found for a plain namespace belongs to a pattern whose effective form
      matches. */
  lemma {:induction false} LookupIsEffective(n: Node, names: Names) returns (q: Names)
    requires Named(n) && Plain(names) && (n.name == STARS ==> names != []) && Lookup(n, names).Some?
    ensures LevelAt(n, q) == Lookup(n, names).value != UNKNOWN
    ensures Matches(Effective(Under(n) + q), names)
    decreases n, 1
  {
    if names == [] {
      q := if n.level == UNKNOWN && STARS in n.children then [STARS] else [];
      assert [] + q == q && [STARS][1..] == [];
      EffectiveOfNothing(q);
    } else if Child(n, names[0], names[1..]).Some? {
      q := ChildIsEffective(n, names[0], names, 1);
    } else if n.name == STARS && SkipFrom(n, names, 0).Some? {
      var j := SkipFinds(n, names, 0);
      q := ChildIsEffective(n, names[j], names, j + 1);
    } else if n.name == STARS && n.level != UNKNOWN {
      q := [];
      assert [STARS] + q == [STARS];
      StarsMatchAll(names);
    } else if Child(n, STAR, names[1..]).Some? {
      q := ChildIsEffective(n, STAR, names, 1);
    } else {
      assert names[0..] == names;
      q := ChildIsEffective(n, STARS, names, 0);
    }
  }

  lemma {:induction false} ChildIsEffective(n: Node, key: string, names: Names, i: nat) returns (q: Names)
    requires Named(n) && Plain(names) && i <= |names| && names != [] && Child(n, key, names[i..]).Some?
    requires if key == STARS then i == 0 else i > 0 && (key == STAR || key == names[i - 1])
    requires i <= 1 || (n.name == STARS && !Wild(key))
    ensures LevelAt(n, q) == Child(n, key, names[i..]).value != UNKNOWN
    ensures Matches(Effective(Under(n) + q), names) && q != [] && q[0] == key
    decreases n, 0
  {
    var r := LookupIsEffective(n.children[key], names[i..]);
    EffectiveParent(n, key, r, names, i);
    q := [key] + r;
    assert q[1..] == r;
  }

  // -----------------------------------------------------------------------
  // Which pattern wins
  // -----------------------------------------------------------------------

  /** How early the search tries what a pattern goes on with: a literal section, nothing
      more, *, and last **. */
  function Rank(p: Names): nat {
    if p == [] then 1 else if p[0] == STARS then 3 else if p[0] == STAR then 2 else 0
  }

  /** The patterns agree up to a section, at the latest the one after the first **, where
      the first is tried earlier. */
  predicate Preferred(p: Names, q: Names) {
    if p != [] && q != [] && p[0] == q[0] then
      if p[0] == STARS then Rank(p[1..]) < Rank(q[1..]) else Preferred(p[1..], q[1..])
    else Rank(p) < Rank(q)
  }

  /** The pattern has a level and its effective form matches. */
  predicate Candidate(n: Node, p: Names, names: Names) {
    LevelAt(n, p) != UNKNOWN && Matches(Effective(p), names)
  }

  /** The search at a node that is no ** goes on below the child that a candidate names. */
  lemma {:induction false} CandidateReached(n: Node, p: Names, names: Names)
    requires Named(n) && n.name != STARS && Plain(names) && names != [] && Candidate(n, p, names)
    ensures p != [] && p[0] in n.children && (p[0] == STARS || p[0] == STAR || p[0] == names[0])
    ensures Child(n, p[0], if p[0] == STARS then names else names[1..]).Some?
    ensures p[0] != STARS ==> Candidate(n.children[p[0]], p[1..], names[1..])
  {
    var c, rest := n.children[p[0]], p[1..];
    if p[0] == STARS {
      assert [STARS] + rest == p;
      LookupIsComplete(c, rest, names);
    } else {
      OneSection(p, names);
      assert [] + rest == rest;
      LookupIsComplete(c, rest, names[1..]);
    }
  }

  /** The level found belongs to a candidate over which no candidate is preferred. */
  lemma {:induction false} PreferredIsFound(n: Node, names: Names) returns (q: Names)
    requires Named(n) && n.name != STARS && Plain(names) && Lookup(n, names).Some?
    ensures Candidate(n, q, names) && LevelAt(n, q) == Lookup(n, names).value
    ensures forall p | Candidate(n, p, names) :: !Preferred(p, q)
    decreases n
  {
    if names == [] {
      q := if n.level == UNKNOWN && STARS in n.children then [STARS] else [];
      assert [STARS][1..] == [];
      EffectiveOfNothing(q);
      forall p | Candidate(n, p, names) ensures !Preferred(p, q) {
        EffectiveOfNothing(p);
      }
    } else {
      var key := if Child(n, names[0], names[1..]).Some? then names[0]
                 else if Child(n, STAR, names[1..]).Some? then STAR else STARS;
      var r := PreferredBelow(n, key, names);
      q := [key] + r;
      assert q[1..] == r;
      forall p | Candidate(n, p, names) ensures !Preferred(p, q) {
        CandidateReached(n, p, names);
        if p[0] == STARS {
          assert [STARS] + p[1..] == p;
          assert UnderStars(n.children[STARS], p[1..], names);
        }
      }
    }
  }

  /** A candidate that goes on below a ** node. */
  predicate UnderStars(n: Node, p: Names, names: Names) {
    LevelAt(n, p) != UNKNOWN && Matches(Effective([STARS] + p), names)
  }

  /** A candidate below ** that is tried before others makes its branch succeed. */
  lemma {:induction false} UnderStarsReached(n: Node, p: Names, names: Names)
    requires Named(n) && n.name == STARS && Plain(names) && names != [] && UnderStars(n, p, names)
    ensures Rank(p) == 0 ==> SkipFrom(n, names, 0).Some?
    ensures Rank(p) == 1 ==> n.level != UNKNOWN
    ensures Rank(p) == 2 ==> Child(n, STAR, names[1..]).Some?
  {
    if p != [] && !Wild(p[0]) {
      var i := StarsReach(p, names);
      assert [] + p[1..] == p[1..];
      LookupIsComplete(n.children[p[0]], p[1..], names[i + 1..]);
      SkipReaches(n, names, 0, i);
    } else if p != [] && p[0] == STAR {
      StarsIdle(p, names);
      OneSection(p, names);
      assert [] + p[1..] == p[1..];
      LookupIsComplete(n.children[STAR], p[1..], names[1..]);
    }
  }

  /** Below ** the level found belongs to a candidate that goes on in the earliest way. */
  lemma {:induction false} EarliestUnderStars(n: Node, names: Names) returns (q: Names)
    requires Named(n) && n.name == STARS && Plain(names) && names != [] && Lookup(n, names).Some?
    ensures UnderStars(n, q, names) && LevelAt(n, q) == Lookup(n, names).value
    ensures forall p | UnderStars(n, p, names) :: Rank(p) >= Rank(q)
  {
    if SkipFrom(n, names, 0).Some? {
      var j := SkipFinds(n, names, 0);
      q := ChildIsEffective(n, names[j], names, j + 1);
      assert q[0] == names[j];
    } else if n.level != UNKNOWN {
      q := [];
      assert [STARS] + q == [STARS];
      StarsMatchAll(names);
    } else if Child(n, STAR, names[1..]).Some? {
      q := ChildIsEffective(n, STAR, names, 1);
    } else {
      assert names[0..] == names;
      q := ChildIsEffective(n, STARS, names, 0);
    }
    forall p | UnderStars(n, p, names) ensures Rank(p) >= Rank(q) {
      UnderStarsReached(n, p, names);
    }
  }

  /** Below the child that the search takes, likewise. */
  lemma {:induction false} PreferredBelow(n: Node, key: string, names: Names) returns (r: Names)
    requires Named(n) && n.name != STARS && Plain(names) && names != [] && key in {names[0], STAR, STARS}
    requires Child(n, key, if key == STARS then names else names[1..]).Some?
    ensures Candidate(n, [key] + r, names)
    ensures LevelAt(n, [key] + r) == Child(n, key, if key == STARS then names else names[1..]).value
    ensures key != STARS ==> forall p | Candidate(n.children[key], p, names[1..]) :: !Preferred(p, r)
    ensures key == STARS ==> forall p | UnderStars(n.children[key], p, names) :: Rank(p) >= Rank(r)
    decreases n, 0
  {
    var c := n.children[key];
    if key == STARS {
      r := EarliestUnderStars(c, names);
    } else {
      r := PreferredIsFound(c, names[1..]);
      OneSection([key] + r, names);
    }
    assert ([key] + r)[1..] == r;
  }

  /** In a pattern, ** is never directly followed by a wildcard. */
  predicate TamePattern(p: Names) {
    forall i | 0 <= i < |p| - 1 :: p[i] == STARS ==> !Wild(p[i + 1])
  }

  /** The search takes a pattern at its word exactly when the pattern is tame. */
  lemma {:induction false} TameIsEffective(p: Names)
    ensures Effective(p) == p <==> TamePattern(p)
  {
    if |p| > 1 {
      if p[0] == STARS && Wild(p[1]) {
        EffectiveNoLonger(p[1..]);
      } else {
        TameIsEffective(p[1..]);
        assert Effective(p)[1..] == Effective(p[1..]);
        assert p == [p[0]] + p[1..];
      }
      TameFirst(p);
    }
  }

  lemma TameFirst(p: Names)
    requires |p| > 1
    ensures TamePattern(p) <==> !(p[0] == STARS && Wild(p[1])) && TamePattern(p[1..])
  {
    var r := p[1..];
    assert TamePattern(p) ==> !(p[0] == STARS && Wild(p[0 + 1]));
    if TamePattern(p) {
      forall i | 0 <= i < |r| - 1 ensures r[i] == STARS ==> !Wild(r[i + 1]) {
        assert r[i] == p[i + 1] && r[i + 1] == p[i + 1 + 1];
      }
    }
    if TamePattern(r) && !(p[0] == STARS && Wild(p[1])) {
      forall i | 0 <= i < |p| - 1 ensures p[i] == STARS ==> !Wild(p[i + 1]) {
        if i > 0 {
          assert p[i] == r[i - 1] && p[i + 1] == r[i - 1 + 1];
        }
      }
    }
  }

  lemma {:induction false} EffectiveNoLonger(p: Names)
    ensures |Effective(p)| <= |p|
  {
    if |p| > 1 {
      EffectiveNoLonger(p[1..]);
    }
  }

  /** An entry for exactly the namespace wins, whatever else is configured. */
  lemma {:induction false} ExactEntryWins(n: Node, names: Names)
    requires LevelAt(n, names) != UNKNOWN
    ensures Lookup(n, names) == Some(LevelAt(n, names))
    decreases |names|
  {
    if names != [] {
      ExactEntryWins(n.children[names[0]], names[1..]);
    }
  }

  // -----------------------------------------------------------------------
  // Building the trie
  // -----------------------------------------------------------------------

  datatype Entry = Entry(pattern: Names, level: Level)

  const ROOT := Node(DISABLED, "", map[])

  function ChildOrNew(n: Node, name: string): Node {
    if name in n.children then n.children[name] else Node(UNKNOWN, name, map[])
  }

  function Added(n: Node, names: Names, level: Level): Node
    decreases |names|
  {
    if names == [] then n.(level := level)
    else n.(children := n.children[names[0] := Added(ChildOrNew(n, names[0]), names[1..], level)])
  }

  /** The trie after adding the entries in the given order. */
  function Built(entries: seq<Entry>): Node {
    if entries == [] then ROOT
    else
      var e := entries[|entries| - 1];
      Added(Built(entries[..|entries| - 1]), e.pattern, e.level)
  }

  lemma {:induction false} LevelAtAdded(n: Node, p: Names, level: Level, q: Names)
    ensures LevelAt(Added(n, p, level), q) == if q == p then level else LevelAt(n, q)
    decreases |p|
  {
    if p != [] && q != [] && p[0] == q[0] {
      LevelAtAdded(ChildOrNew(n, p[0]), p[1..], level, q[1..]);
      assert q == p <==> q[1..] == p[1..] by {
        assert q == [q[0]] + q[1..] && p == [p[0]] + p[1..];
      }
    }
  }

  lemma {:induction false} AddedIsNamed(n: Node, p: Names, level: Level)
    requires Named(n)
    ensures Named(Added(n, p, level)) && Added(n, p, level).name == n.name
    decreases |p|
  {
    if p != [] {
      AddedIsNamed(ChildOrNew(n, p[0]), p[1..], level);
    }
  }

  lemma {:induction false} AddsCommute(n: Node, p: Names, k: Level, q: Names, l: Level)
    requires p != q
    ensures Added(Added(n, p, k), q, l) == Added(Added(n, q, l), p, k)
    decreases |p|
  {
    if p != [] && q != [] && p[0] == q[0] {
      assert p[1..] != q[1..] by {
        assert q == [q[0]] + q[1..] && p == [p[0]] + p[1..];
      }
      AddsCommute(ChildOrNew(n, p[0]), p[1..], k, q[1..], l);
    }
  }

  // -----------------------------------------------------------------------
  // Whole configurations
  // -----------------------------------------------------------------------

  /** A configuration is a map from patterns to levels: no pattern occurs twice. */
  predicate DistinctPatterns(entries: seq<Entry>) {
    forall i, j | 0 <= i < j < |entries| :: entries[i].pattern != entries[j].pattern
  }

  predicate AllTame(entries: seq<Entry>) {
    forall i | 0 <= i < |entries| :: TamePattern(entries[i].pattern)
  }

  /** Some configured pattern matches. */
  predicate SomeMatch(entries: seq<Entry>, names: Names) {
    exists i :: 0 <= i < |entries| && Matches(entries[i].pattern, names)
  }

  /** The effective form of some configured pattern matches. */
  predicate SomeEffectiveMatch(entries: seq<Entry>, names: Names) {
    exists i :: 0 <= i < |entries| && Matches(Effective(entries[i].pattern), names)
  }

  /** Some configured pattern with this level matches. */
  predicate MatchWith(entries: seq<Entry>, names: Names, level: Level) {
    exists i :: 0 <= i < |entries| && Matches(entries[i].pattern, names) && entries[i].level == level
  }

  lemma {:induction false} BuiltIsNamed(entries: seq<Entry>)
    ensures Named(Built(entries)) && Built(entries).name == ""
  {
    if entries != [] {
      var e := entries[|entries| - 1];
      BuiltIsNamed(entries[..|entries| - 1]);
      AddedIsNamed(Built(entries[..|entries| - 1]), e.pattern, e.level);
    }
  }

  /** The trie has exactly the configured levels. */
  lemma {:induction false} BuiltHolds(entries: seq<Entry>, q: Names)
    requires DistinctPatterns(entries)
    ensures forall i | 0 <= i < |entries| && entries[i].pattern == q :: LevelAt(Built(entries), q) == entries[i].level
    ensures (forall i | 0 <= i < |entries| :: entries[i].pattern != q) ==>
      LevelAt(Built(entries), q) == if q == [] then DISABLED else UNKNOWN
  {
    if entries != [] {
      var before, e := entries[..|entries| - 1], entries[|entries| - 1];
      BuiltHolds(before, q);
      LevelAtAdded(Built(before), e.pattern, e.level, q);
    }
  }

  /** Adding an entry earlier is as good as adding it last. */
  lemma {:induction false} BuiltLast(t: seq<Entry>, a: seq<Entry>, e: Entry, b: seq<Entry>)
    requires t == a + [e] + b && forall i | 0 <= i < |b| :: b[i].pattern != e.pattern
    ensures Built(t) == Added(Built(a + b), e.pattern, e.level)
    decreases |b|
  {
    if b == [] {
      assert t[..|t| - 1] == a == a + b;
    } else {
      var c, d := b[..|b| - 1], b[|b| - 1];
      assert t[..|t| - 1] == a + [e] + c;
      assert (a + b)[..|a + b| - 1] == a + c;
      BuiltLast(t[..|t| - 1], a, e, c);
      AddsCommute(Built(a + c), e.pattern, e.level, d.pattern, d.level);
    }
  }

  lemma DistinctWithout(t: seq<Entry>, i: nat)
    requires DistinctPatterns(t) && i < |t|
    ensures DistinctPatterns(t[..i] + t[i + 1..])
  {
    var u := t[..i] + t[i + 1..];
    assert forall k | 0 <= k < |u| :: u[k] == t[if k < i then k else k + 1];
  }

  lemma {:induction false} BuiltWithout(t: seq<Entry>, i: nat)
    requires DistinctPatterns(t) && i < |t|
    ensures Built(t) == Added(Built(t[..i] + t[i + 1..]), t[i].pattern, t[i].level)
  {
    var a, b := t[..i], t[i + 1..];
    forall k | 0 <= k < |b| ensures b[k].pattern != t[i].pattern {
      var later := i + 1 + k;
      assert b[k] == t[later];
    }
    BuiltLast(t, a, t[i], b);
  }

  lemma MultisetWithout(t: seq<Entry>, i: nat)
    requires i < |t|
    ensures multiset(t) == multiset(t[..i] + t[i + 1..]) + multiset{t[i]}
  {
    assert t == t[..i] + [t[i]] + t[i + 1..];
  }

  /** The order in which the configuration is added makes no difference. */
  lemma {:induction false} OrderIsIrrelevant(s: seq<Entry>, t: seq<Entry>)
    requires DistinctPatterns(s) && DistinctPatterns(t) && multiset(s) == multiset(t)
    ensures Built(s) == Built(t)
    decreases |s|
  {
    if s == [] {
      assert |multiset(t)| == 0;
    } else {
      var r, e := s[..|s| - 1], s[|s| - 1];
      assert s == r + [e];
      var i := FindIn(t, e);
      var u := t[..i] + t[i + 1..];
      assert multiset(r) == multiset(u) by {
        MultisetWithout(t, i);
        assert multiset(r) == multiset(s) - multiset{e};
      }
      assert Built(r) == Built(u) by {
        DistinctWithout(t, i);
        OrderIsIrrelevant(r, u);
      }
      BuiltWithout(t, i);
    }
  }

  lemma FindIn(t: seq<Entry>, e: Entry) returns (i: nat)
    requires e in multiset(t)
    ensures i < |t| && t[i] == e
  {
    i :| 0 <= i < |t| && t[i] == e;
  }

  // -----------------------------------------------------------------------
  // Namespaces
  // -----------------------------------------------------------------------

  /** A section holds no colon. */
  predicate ColonFree(names: Names) {
    forall i | 0 <= i < |names| :: ':' !in names[i]
  }

  /** strings.Split by colon: a namespace is never without sections. */
  function Split(namespace: string): (names: Names)
    ensures names != [] && ColonFree(names)
    ensures Join(names) == namespace
  {
    if namespace == "" then [""]
    else
      var rest := Split(namespace[1..]);
      assert namespace == [namespace[0]] + namespace[1..];
      if namespace[0] == ':' then [""] + rest
      else [[namespace[0]] + rest[0]] + rest[1..]
  }

  /** The inverse of splitting. */
  function Join(names: Names): string
    requires names != []
  {
    if |names| == 1 then names[0] else names[0] + ":" + Join(names[1..])
  }

  /** Splitting is the only way to write a namespace as colon-free sections. */
  lemma {:induction false} SplitIsUnique(names: Names)
    requires names != [] && ColonFree(names)
    ensures Split(Join(names)) == names
  {
    if |names| == 1 {
      SplitSection(names[0]);
    } else {
      var rest := names[1..];
      SplitIsUnique(rest);
      SplitPrefix(names[0], Join(rest));
      assert names == [names[0]] + rest;
    }
  }

  lemma {:induction false} SplitSection(name: string)
    requires ':' !in name
    ensures Split(name) == [name]
  {
    if name != "" {
      SplitSection(name[1..]);
    }
  }

  lemma {:induction false} SplitPrefix(name: string, rest: string)
    requires ':' !in name
    ensures Split(name + ":" + rest) == [name] + Split(rest)
  {
    var whole := name + ":" + rest;
    if name == "" {
      assert whole[1..] == rest;
    } else {
      assert whole[1..] == name[1..] + ":" + rest;
      SplitPrefix(name[1..], rest);
      assert whole[0] == name[0] && name == [name[0]] + name[1..];
      assert ([name[1..]] + Split(rest))[1..] == Split(rest);
    }
  }

  /** The empty namespace stands for the root. */
  function Pattern(namespace: string): Names {
    if namespace == "" then [] else Split(namespace)
  }

  function LevelForNamespace(root: Node, namespace: string): Level {
    if namespace == "" then root.level
    else
      var found := Lookup(root, Split(namespace));
      if found.Some? then found.value else root.level
  }

  /** Different configuration keys are different patterns. */
  lemma PatternIsInjective(a: string, b: string)
    requires Pattern(a) == Pattern(b)
    ensures a == b
  {
  }

  /** For every configuration and namespace: if a level is found, some configured
      pattern that matches the namespace has it, and an entry for the very namespace
      decides. For every plain namespace a level is found exactly when the effective
      form of a configured pattern matches; so if the configuration is tame, exactly
      when a configured pattern matches. */
  lemma ConfigurationMeaning(entries: seq<Entry>, names: Names)
    requires DistinctPatterns(entries) && names != []
    requires forall i | 0 <= i < |entries| :: entries[i].level != UNKNOWN
    ensures var found := Lookup(Built(entries), names);
      && (found.Some? ==> MatchWith(entries, names, found.value))
      && (Plain(names) ==> (found.Some? <==> SomeEffectiveMatch(entries, names)))
      && (Plain(names) && AllTame(entries) ==> (found.Some? <==> SomeMatch(entries, names)))
      && (forall i | 0 <= i < |entries| && entries[i].pattern == names :: found == Some(entries[i].level))
  {
    var root := Built(entries);
    BuiltIsNamed(entries);
    if Lookup(root, names).Some? {
      var q := LookupIsSound(root, names);
      assert [] + q == q;
      var i := ConfiguredAt(entries, q);
    }
    if Plain(names) {
      FoundExactlyWhen(entries, names);
    }
    if AllTame(entries) {
      forall i | 0 <= i < |entries| ensures Effective(entries[i].pattern) == entries[i].pattern {
        TameIsEffective(entries[i].pattern);
      }
    }
    forall i | 0 <= i < |entries| && entries[i].pattern == names ensures Lookup(root, names) == Some(entries[i].level) {
      BuiltHolds(entries, names);
      ExactEntryWins(root, names);
    }
  }

  /** A pattern that the trie holds was configured. */
  lemma ConfiguredAt(entries: seq<Entry>, q: Names) returns (i: nat)
    requires DistinctPatterns(entries)
    requires LevelAt(Built(entries), q) != UNKNOWN && q != []
    ensures i < |entries| && entries[i].pattern == q && LevelAt(Built(entries), q) == entries[i].level
  {
    BuiltHolds(entries, q);
    i :| 0 <= i < |entries| && entries[i].pattern == q;
  }

  lemma FoundExactlyWhen(entries: seq<Entry>, names: Names)
    requires DistinctPatterns(entries) && names != [] && Plain(names)
    requires forall i | 0 <= i < |entries| :: entries[i].level != UNKNOWN
    ensures Lookup(Built(entries), names).Some? <==> SomeEffectiveMatch(entries, names)
  {
    var root := Built(entries);
    BuiltIsNamed(entries);
    if Lookup(root, names).Some? {
      var q := LookupIsEffective(root, names);
      assert [] + q == q;
      var i := ConfiguredAt(entries, q);
    }
    if SomeEffectiveMatch(entries, names) {
      var i :| 0 <= i < |entries| && Matches(Effective(entries[i].pattern), names);
      BuiltHolds(entries, entries[i].pattern);
      assert [] + entries[i].pattern == entries[i].pattern;
      LookupIsComplete(root, entries[i].pattern, names);
    }
  }

  /** A ** followed by a * misses: the pattern matches, and nothing is found. */
  lemma UntamePatternMisses()
    ensures Matches([STARS, STAR], ["a", "b"])
    ensures Lookup(Built([Entry([STARS, STAR], 1)]), ["a", "b"]) == None
  {
    var e := Entry([STARS, STAR], 1);
    assert [e][..0] == [];
    var star := Node(1, STAR, map[]);
    var stars := Node(UNKNOWN, STARS, map[STAR := star]);
    assert e.pattern[1..] == [STAR] && e.pattern[1..][1..] == [];
    assert Added(ChildOrNew(Node(UNKNOWN, STARS, map[]), STAR), [], 1) == star;
    assert Added(ChildOrNew(ROOT, STARS), [STAR], 1) == stars;
    assert Built([e]) == ROOT.(children := map[STARS := stars]);
    assert Lookup(star, ["b"]) == None;
    assert SkipFrom(stars, ["a", "b"], 2) == None && SkipFrom(stars, ["a", "b"], 1) == None;
    assert Lookup(stars, ["a", "b"]) == None;
    assert Matches([STAR], ["b"]);
    StarsSkip([STAR], ["a", "b"], 1);
  }

  /** Among the settings whose effective form matches a plain namespace, one over which
      none is preferred decides. */
  lemma PreferredEntryWins(entries: seq<Entry>, names: Names) returns (i: nat)
    requires DistinctPatterns(entries) && names != [] && Plain(names) && SomeEffectiveMatch(entries, names)
    requires forall k | 0 <= k < |entries| :: entries[k].level != UNKNOWN
    ensures i < |entries| && Lookup(Built(entries), names) == Some(entries[i].level)
    ensures Matches(Effective(entries[i].pattern), names)
    ensures forall k | 0 <= k < |entries| && Matches(Effective(entries[k].pattern), names) ::
      !Preferred(entries[k].pattern, entries[i].pattern)
  {
    var root := Built(entries);
    BuiltIsNamed(entries);
    FoundExactlyWhen(entries, names);
    var q := PreferredIsFound(root, names);
    i := ConfiguredAt(entries, q);
    forall k | 0 <= k < |entries| && Matches(Effective(entries[k].pattern), names)
      ensures !Preferred(entries[k].pattern, q)
    {
      BuiltHolds(entries, entries[k].pattern);
      assert Candidate(root, entries[k].pattern, names);
    }
  }
}
