/** The trie of logger namespaces as nodes that are updated in place. */
module WildcardTrie {
  import opened Common
  import opened Wildcard

  class WildcardNode {
    var level: Level
    const name: string
    var children: map<string, WildcardNode>
    ghost var repr: set<WildcardNode>
    /** The subtrie as a value, kept in step with the nodes. */
    ghost var view: Node

    constructor (name: string, level: Level)
      ensures Valid() && fresh(repr) && view == Node(level, name, map[])
    {
      this.level, this.name, children := level, name, map[];
      repr, view := {this}, Node(level, name, map[]);
    }

    /** A tree: the nodes below different children are different, and none is above
        itself. */
    ghost predicate Valid()
      reads this, repr
      decreases repr + {this}
    {
      && this in repr
      && view.level == level && view.name == name && view.children.Keys == children.Keys
      && (forall k | k in children ::
            && children[k] in repr && children[k].repr <= repr - {this}
            && children[k].Valid() && children[k].view == view.children[k])
      && (forall j, k | j in children && k in children && j != k :: children[j].repr !! children[k].repr)
    }

    /** Sets the level of a pattern, growing the trie where it is missing. */
    method Add(names: Names, level: Level)
      requires Valid()
      modifies repr
      ensures Valid() && fresh(repr - old(repr))
      ensures view == Added(old(view), names, level)
      decreases |names|
    {
      if |names| == 0 {
        SetLevel(level);
      } else {
        FindOrCreate(names[0]);
        AddBelow(names, level);
      }
    }

    method SetLevel(level: Level)
      requires Valid()
      modifies this`level, this`view
      ensures Valid() && view == old(view).(level := level)
    {
      this.level, view := level, view.(level := level);
    }

    method FindOrCreate(key: string)
      requires Valid()
      modifies this
      ensures Valid() && fresh(repr - old(repr)) && key in children
      ensures view == old(view).(children := old(view).children[key := ChildOrNew(old(view), key)])
    {
      if key !in children {
        var child := new WildcardNode(key, UNKNOWN);
        children := children[key := child];
        repr := repr + child.repr;
        view := view.(children := view.children[key := child.view]);
      }
    }

    method AddBelow(names: Names, level: Level)
      requires Valid() && names != [] && names[0] in children
      modifies this, children[names[0]].repr
      ensures Valid() && fresh(repr - old(repr))
      ensures view == Added(old(view), names, level)
      decreases |names|, 0
    {
      children[names[0]].Add(names[1..], level);
      Refresh(names[0]);
    }

    /** A tree in which one child may have changed and grown. */
    ghost predicate ValidBut(key: string)
      reads this, repr, if key in children then {children[key]} + children[key].repr else {}
    {
      && this in repr && key in children && this !in children[key].repr && children[key].Valid()
      && view.level == level && view.name == name && view.children.Keys == children.Keys
      && (forall k | k in children ::
            k != key ==>
            && children[k] in repr && children[k].repr <= repr - {this} && children[k].repr !! children[key].repr
            && children[k].Valid() && children[k].view == view.children[k])
      && (forall j, k | j in children && k in children && j != k && j != key && k != key ::
            children[j].repr !! children[k].repr)
    }

    /** Takes note of what changed below a child. */
    ghost method Refresh(key: string)
      requires ValidBut(key)
      modifies this`repr, this`view
      ensures Valid() && repr == old(repr) + children[key].repr
      ensures view == old(view).(children := old(view).children[key := children[key].view])
    {
      repr, view := repr + children[key].repr, view.(children := view.children[key := children[key].view]);
    }

    /** The level for the remaining sections: a recursion with a search loop. */
    method LevelForNames(names: Names) returns (level: Level, ok: bool)
      requires Valid()
      ensures ok <==> Lookup(view, names).Some?
      ensures ok ==> level == Lookup(view, names).value
      decreases repr
    {
      if |names| == 0 {
        var node := this;
        if node.level == UNKNOWN && STARS in children {
          node := children[STARS];
        }
        return node.level, node.level != UNKNOWN;
      }
      level, ok := LevelBelow(names[0], names[1..]);
      if ok {
        return;
      }
      if name == STARS {
        for i := 0 to |names|
          invariant SkipFrom(view, names, 0) == SkipFrom(view, names, i)
        {
          level, ok := LevelBelow(names[i], names[i + 1..]);
          if ok {
            return;
          }
        }
        if this.level != UNKNOWN {
          return this.level, true;
        }
      }
      level, ok := LevelBelow(STAR, names[1..]);
      if ok {
        return;
      }
      level, ok := LevelBelow(STARS, names);
    }

    /** The level for the sections below a child, if there is such a child. */
    method LevelBelow(key: string, names: Names) returns (level: Level, ok: bool)
      requires Valid()
      ensures ok <==> Child(view, key, names).Some?
      ensures ok ==> level == Child(view, key, names).value
      decreases repr, 0
    {
      if key !in children {
        return DISABLED, false;
      }
      level, ok := children[key].LevelForNames(names);
    }

    method LevelForNamespace(namespace: string) returns (level: Level)
      requires Valid()
      ensures level == Wildcard.LevelForNamespace(view, namespace)
    {
      if namespace == "" {
        return this.level;
      }
      var found, ok := LevelForNames(Split(namespace));
      return if ok then found else this.level;
    }
  }

  datatype Setting = Setting(namespace: string, level: Level)

  /** The entries that settings stand for. */
  function Entries(settings: seq<Setting>): seq<Entry> {
    seq(|settings|, i requires 0 <= i < |settings| => Entry(Pattern(settings[i].namespace), settings[i].level))
  }

  /** Builds the trie from the settings, in the order in which they are visited. */
  method NewWildcardNode(config: seq<Setting>) returns (root: WildcardNode)
    ensures root.Valid() && fresh(root.repr)
    ensures root.view == Built(Entries(config))
  {
    root := new WildcardNode("", DISABLED);
    for i := 0 to |config|
      invariant root.Valid() && fresh(root.repr)
      invariant root.view == Built(Entries(config[..i]))
    {
      root.Add(Pattern(config[i].namespace), config[i].level);
      assert Entries(config[..i + 1])[..i] == Entries(config[..i]);
    }
    assert config[..|config|] == config;
  }

  /** A configuration is a map: no namespace is set twice, and every level is known. */
  predicate Configured(settings: seq<Setting>) {
    && (forall i, j | 0 <= i < j < |settings| :: settings[i].namespace != settings[j].namespace)
    && (forall i | 0 <= i < |settings| :: settings[i].level != UNKNOWN)
  }

  lemma EntriesAreDistinct(settings: seq<Setting>)
    requires Configured(settings)
    ensures DistinctPatterns(Entries(settings))
  {
    forall i, j | 0 <= i < j < |settings| ensures Entries(settings)[i].pattern != Entries(settings)[j].pattern {
      if Pattern(settings[i].namespace) == Pattern(settings[j].namespace) {
        PatternIsInjective(settings[i].namespace, settings[j].namespace);
      }
    }
  }

  /** The level set for the empty namespace, on which every search falls back. */
  predicate IsDefault(settings: seq<Setting>, level: Level) {
    && (forall i | 0 <= i < |settings| && settings[i].namespace == "" :: level == settings[i].level)
    && ((forall i | 0 <= i < |settings| :: settings[i].namespace != "") ==> level == DISABLED)
  }

  lemma RootHasDefault(settings: seq<Setting>)
    requires Configured(settings)
    ensures IsDefault(settings, Built(Entries(settings)).level)
  {
    EntriesAreDistinct(settings);
    var entries := Entries(settings);
    BuiltHolds(entries, []);
    forall i | 0 <= i < |settings| ensures entries[i].pattern == [] <==> settings[i].namespace == "" {
    }
  }

  /** What a configuration says of a namespace: its own setting decides; otherwise a
      plain namespace has the level of a setting that matches it, or the default level
      exactly when the effective form of no setting matches. */
  lemma NamespaceMeaning(settings: seq<Setting>, namespace: string)
    requires Configured(settings)
    ensures var entries, names := Entries(settings), Split(namespace);
      var level := Wildcard.LevelForNamespace(Built(entries), namespace);
      && (forall i | 0 <= i < |settings| && settings[i].namespace == namespace :: level == settings[i].level)
      && (namespace == "" ==> IsDefault(settings, level))
      && (namespace != "" && Plain(names) ==>
            if SomeEffectiveMatch(entries, names) then MatchWith(entries, names, level) else IsDefault(settings, level))
  {
    EntriesAreDistinct(settings);
    RootHasDefault(settings);
    if namespace != "" {
      ConfigurationMeaning(Entries(settings), Split(namespace));
      forall i | 0 <= i < |settings| && settings[i].namespace == namespace
        ensures Entries(settings)[i].pattern == Split(namespace)
      {
      }
    }
  }
}
