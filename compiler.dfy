/**
 * RuleCompiler and CompiledRule (src/z3b/rule_compiler.py): a rule written in the DSL as a class
 * and its ancestors is flattened into a compiled rule that the engine asks which calls it offers,
 * what a call means under it and with which priority, and which annotations a call carries.
 *
 * A DSL class is its own attribute definitions; a rule is given by its method resolution order
 * (the class first, its most basic DSL ancestor last), below which the base class Rule supplies
 * its defaults. Call names stand for the calls Call.from_string makes of them. Constraint and
 * precondition objects come from modules that are not part of this model: what a constraint
 * object means for the call at hand, and whether a precondition fits it, are parameters.
 */
module RuleCompiler {
  import opened Wrappers
  import opened Seqs
  import opened Formulas
  import opened ConstraintSpecs
  import opened Histories
  import Rules

  /** A constraint object of the constraints module, known by its name. */
  datatype ConstraintObject = ConstraintObject(name: string)

  /** A precondition object of the preconditions module, known by its name. */
  datatype PreconditionObject = PreconditionObject(name: string)

  type Constraints = Spec<ConstraintObject>

  /** A priority: a value of a priorities enum, or the rule class itself when it declares none. */
  datatype PriorityValue = EnumValue(value: Rules.Priority) | RuleClass(name: string)

  /** An attribute that _ensure_list accepts: one (truthy, non-iterable) value or a list. */
  datatype Listing<T> = One(item: T) | Many(items: seq<T>) {
    /** Python truthiness: a single value is truthy, a list when it is not empty. */
    predicate Truthy() {
      One? || |items| > 0
    }
  }

  /** _ensure_list: a single value becomes a one-element list, a list stays as it is. */
  function EnsureList<T>(v: Listing<T>): (r: seq<T>)
    ensures v.One? ==> r == [v.item]
    ensures v.Many? ==> r == v.items
  {
    match v
    case One(x) => [x]
    case Many(xs) => xs
  }

  /** A dictionary key of the DSL: one call name, or a tuple of call names sharing a value. */
  datatype Key = Name(name: string) | Names(names: seq<string>)

  /** A per-call constraints value that is not a list or tuple: nothing, a formula or a constraint object. */
  type PlainConstraints = c: Constraints | !c.Items? witness Absent

  /** A value of the `constraints` dictionary: plain constraints, or a (constraints, priority) pair. */
  datatype Entry = Plain(constraints: PlainConstraints) | Pair(first: Constraints, second: Option<PriorityValue>)

  /** Conditions paired with priorities, as conditional_priorities lists them. */
  type Conditionals = seq<(Constraints, PriorityValue)>

  /**
   * What one DSL class defines itself (None: not defined here, so inherited), and the names of
   * any other attributes in its own dictionary.
   */
  datatype Own = Own(
    preconditions: Option<Listing<PreconditionObject>>,
    category: Option<nat>,
    requiresPlanning: Option<bool>,
    callNames: Option<Option<Listing<string>>>,
    constraints: Option<seq<(Key, Entry)>>,
    sharedConstraints: Option<Listing<Constraints>>,
    annotations: Option<Listing<Annotation>>,
    conditionalPriorities: Option<Conditionals>,
    conditionalPrioritiesPerCall: Option<seq<(Key, Conditionals)>>,
    annotationsPerCall: Option<seq<(string, Listing<Annotation>)>>,
    priority: Option<Option<PriorityValue>>,
    prioritiesPerCall: Option<seq<(Key, PriorityValue)>>,
    otherAttributes: set<string>)

  datatype DslClass = DslClass(name: string, own: Own)

  /** categories, in the order the enum lists them. */
  const DefaultCategory: nat := 3

  /**
   * getattr on the first class of `mro`: its own definition, else the nearest ancestor's, else
   * the base class's `default`.
   */
  function Inherited<T>(mro: seq<DslClass>, get: Own -> Option<T>, default: T): (r: T)
    ensures |mro| > 0 && get(mro[0].own).Some? ==> r == get(mro[0].own).value
    ensures |mro| > 0 && get(mro[0].own).None? ==> r == Inherited(mro[1..], get, default)
    ensures (forall i :: 0 <= i < |mro| ==> get(mro[i].own).None?) ==> r == default
  {
    if |mro| == 0 then default
    else if get(mro[0].own).Some? then get(mro[0].own).value
    else Inherited(mro[1..], get, default)
  }

  /** What getattr gives one ancestor for a list property, as _ensure_list leaves it. */
  function Contribution<T>(mro: seq<DslClass>, get: Own -> Option<Listing<T>>): seq<T> {
    EnsureList(Inherited(mro, get, Many([])))
  }

  /**
   * The contributions of the ancestors, root first: the base class and `object` contribute
   * nothing, then every DSL class from the most basic to the rule itself, each seeing its own
   * method resolution order, which is a suffix of the rule's.
   */
  function Contributions<T>(mro: seq<DslClass>, get: Own -> Option<Listing<T>>): (r: seq<seq<T>>)
    ensures |r| == |mro|
  {
    seq(|mro|, i requires 0 <= i < |mro| => Contribution(mro[|mro| - 1 - i..], get))
  }

  /** _joined_list_from_ancestors: the contributions concatenated, root first. */
  function Joined<T(!new)>(mro: seq<DslClass>, get: Own -> Option<Listing<T>>): seq<T> {
    Flatten(Contributions(mro, get))
  }

  /**
   * Ancestors come before the class: the joined list is the parent's joined list followed by
   * what the class itself resolves the property to; and a class that does not define the
   * property resolves it as its parent does, so the parent's entries appear again.
   */
  lemma JoinedParentsFirst<T(!new)>(mro: seq<DslClass>, get: Own -> Option<Listing<T>>)
    requires |mro| > 0
    ensures Joined(mro, get) == Joined(mro[1..], get) + Contribution(mro, get)
    ensures get(mro[0].own).None? ==> Contribution(mro, get) == Contribution(mro[1..], get)
    ensures get(mro[0].own).Some? ==> Contribution(mro, get) == EnsureList(get(mro[0].own).value)
  {
    var n := |mro|;
    var all := Contributions(mro, get);
    var parents := Contributions(mro[1..], get);
    forall i | 0 <= i < n - 1
      ensures all[i] == parents[i]
    {
      assert mro[n - 1 - i..] == mro[1..][n - 2 - i..];
    }
    assert all == parents + [Contribution(mro, get)];
    FlattenAppend(parents, Contribution(mro, get));
  }

  /** An item is in the joined list exactly when some ancestor resolves the property to a list holding it. */
  lemma JoinedMembers<T(!new)>(mro: seq<DslClass>, get: Own -> Option<Listing<T>>, x: T)
    ensures x in Joined(mro, get) <==> exists i :: 0 <= i < |mro| && x in Contribution(mro[i..], get)
  {
    var all := Contributions(mro, get);
    if x in Joined(mro, get) {
      var k :| 0 <= k < |all| && x in all[k];
      assert x in Contribution(mro[|mro| - 1 - k..], get);
    }
    if i :| 0 <= i < |mro| && x in Contribution(mro[i..], get) {
      assert x in all[|mro| - 1 - i];
    }
  }

  /** The names a dictionary key stands for. */
  function NamesOf(k: Key): seq<string> {
    match k
    case Name(n) => [n]
    case Names(ns) => ns
  }

  /** Every name the keys of a dictionary stand for, key by key. */
  function AllNames<V>(original: seq<(Key, V)>): seq<string> {
    if |original| == 0 then []
    else AllNames(original[..|original| - 1]) + NamesOf(original[|original| - 1].0)
  }

  /** Each of `names` paired with `v`. */
  function Pairs<V>(names: seq<string>, v: V): (r: seq<(string, V)>)
    ensures |r| == |names| && forall i :: 0 <= i < |names| ==> r[i] == (names[i], v)
  {
    seq(|names|, i requires 0 <= i < |names| => (names[i], v))
  }

  /** The inner loop of _flatten_tuple_keyed_dict: each name of one key, refused if already present. */
  function AddNames<V>(acc: seq<(string, V)>, names: seq<string>, v: V): Result<seq<(string, V)>, string> {
    if |names| == 0 then Ok(acc)
    else
      var m := |names| - 1;
      var prev := AddNames(acc, names[..m], v);
      if prev.Err? then prev
      else if names[m] in Keys(prev.value) then Err("Key (" + names[m] + ") was listed twice")
      else Ok(prev.value + [(names[m], v)])
  }

  /** _flatten_tuple_keyed_dict, entry by entry in dictionary order. */
  function Flattened<V>(original: seq<(Key, V)>): Result<seq<(string, V)>, string> {
    if |original| == 0 then Ok([])
    else
      var n := |original| - 1;
      var prev := Flattened(original[..n]);
      if prev.Err? then prev else AddNames(prev.value, NamesOf(original[n].0), original[n].1)
  }

  /** Each key's names paired with its value, key by key: what a flattening that succeeds holds. */
  function FlatPairs<V>(original: seq<(Key, V)>): seq<(string, V)> {
    if |original| == 0 then []
    else
      var n := |original| - 1;
      FlatPairs(original[..n]) + Pairs(NamesOf(original[n].0), original[n].1)
  }

  lemma KeysAppend<K, V>(a: seq<(K, V)>, b: seq<(K, V)>)
    ensures Keys(a + b) == Keys(a) + Keys(b)
  {
    assert forall i :: 0 <= i < |a + b| ==> Keys(a + b)[i] == (Keys(a) + Keys(b))[i];
  }

  lemma KeysOfPairs<V>(names: seq<string>, v: V)
    ensures Keys(Pairs(names, v)) == names
  {
  }

  /**
   * Adding one key's names succeeds exactly when no name is already present and none repeats
   * within the key, and then it appends each name with the key's value.
   */
  lemma {:induction false} AddNamesMeans<V>(acc: seq<(string, V)>, names: seq<string>, v: V)
    requires NoRepeats(Keys(acc))
    ensures AddNames(acc, names, v).Ok? <==> NoRepeats(Keys(acc) + names)
    ensures AddNames(acc, names, v).Ok? ==> AddNames(acc, names, v).value == acc + Pairs(names, v)
  {
    if |names| > 0 {
      var m := |names| - 1;
      var front := names[..m];
      AddNamesMeans(acc, front, v);
      TakeStep(names, m);
      assert Keys(acc) + names == (Keys(acc) + front) + [names[m]];
      NoRepeatsSnoc(Keys(acc) + front, names[m]);
      var prev := AddNames(acc, front, v);
      if prev.Ok? {
        KeysAppend(acc, Pairs(front, v));
        KeysOfPairs(front, v);
        assert acc + Pairs(front, v) + [(names[m], v)] == acc + Pairs(names, v);
      } else {
        NoRepeatsPrefix(Keys(acc) + names, |acc| + m);
        assert (Keys(acc) + names)[..|acc| + m] == Keys(acc) + front;
      }
    }
  }

  /**
   * Flattening succeeds exactly when no name occurs twice, within one tuple key or across keys;
   * it then maps every name of every key to that key's value, in key order.
   */
  lemma {:induction false} FlattenedMeans<V>(original: seq<(Key, V)>)
    ensures Flattened(original).Ok? <==> NoRepeats(AllNames(original))
    ensures Flattened(original).Ok? ==> Flattened(original).value == FlatPairs(original)
    ensures Keys(FlatPairs(original)) == AllNames(original)
  {
    if |original| > 0 {
      var n := |original| - 1;
      var front := original[..n];
      var names := NamesOf(original[n].0);
      FlattenedMeans(front);
      KeysAppend(FlatPairs(front), Pairs(names, original[n].1));
      KeysOfPairs(names, original[n].1);
      var prev := Flattened(front);
      if prev.Ok? {
        AddNamesMeans(prev.value, names, original[n].1);
      } else {
        NoRepeatsPrefix(AllNames(original), |AllNames(front)|);
        assert AllNames(original)[..|AllNames(front)|] == AllNames(front);
      }
    }
  }

  /** A flattening that succeeds gives every name of a key that key's value. */
  lemma FlattenedLookup<V>(original: seq<(Key, V)>, i: nat, name: string)
    requires Flattened(original).Ok? && i < |original| && name in NamesOf(original[i].0)
    ensures Lookup(Flattened(original).value, name) == Some(original[i].1)
  {
    FlattenedMeans(original);
    FlatPairsHolds(original, i, name);
    KeysUniqueIsNoRepeats(Flattened(original).value);
  }

  lemma {:induction false} FlatPairsHolds<V>(original: seq<(Key, V)>, i: nat, name: string)
    requires i < |original| && name in NamesOf(original[i].0)
    ensures (name, original[i].1) in FlatPairs(original)
  {
    var n := |original| - 1;
    if i < n {
      FlatPairsHolds(original[..n], i, name);
    } else {
      var names := NamesOf(original[n].0);
      var k :| 0 <= k < |names| && names[k] == name;
      assert Pairs(names, original[n].1)[k] == (name, original[i].1);
    }
  }

  /** Once the inner loop has refused a name, later names do not change the outcome. */
  lemma {:induction false} AddNamesErrStays<V>(acc: seq<(string, V)>, names: seq<string>, v: V, j: nat)
    requires j <= |names| && AddNames(acc, names[..j], v).Err?
    ensures AddNames(acc, names, v) == AddNames(acc, names[..j], v)
    decreases |names| - j
  {
    if j < |names| {
      TakeStep(names, j);
      AddNamesErrStays(acc, names, v, j + 1);
    } else {
      TakeAll(names);
    }
  }

  /** Once a key has been refused, later keys do not change the outcome. */
  lemma {:induction false} FlattenedErrStays<V>(original: seq<(Key, V)>, i: nat)
    requires i <= |original| && Flattened(original[..i]).Err?
    ensures Flattened(original) == Flattened(original[..i])
    decreases |original| - i
  {
    if i < |original| {
      TakeStep(original, i);
      FlattenedErrStays(original, i + 1);
    } else {
      TakeAll(original);
    }
  }

  /** _flatten_tuple_keyed_dict: fills a new dictionary key by key, refusing a name seen before. */
  method FlattenTupleKeyedDict<V>(original: seq<(Key, V)>) returns (r: Result<seq<(string, V)>, string>)
    ensures r == Flattened(original)
  {
    var flattened: seq<(string, V)> := [];
    var i := 0;
    while i < |original|
      invariant 0 <= i <= |original|
      invariant Flattened(original[..i]) == Ok(flattened)
    {
      var (key, value) := original[i];
      var names := NamesOf(key);
      TakeStep(original, i);
      var before := flattened;
      var j := 0;
      while j < |names|
        invariant 0 <= j <= |names|
        invariant AddNames(before, names[..j], value) == Ok(flattened)
      {
        TakeStep(names, j);
        if names[j] in Keys(flattened) {
          r := Err("Key (" + names[j] + ") was listed twice");
          AddNamesErrStays(before, names, value, j + 1);
          FlattenedErrStays(original, i + 1);
          return;
        }
        flattened := flattened + [(names[j], value)];
        j := j + 1;
      }
      TakeAll(names);
      i := i + 1;
    }
    TakeAll(original);
    r := Ok(flattened);
  }

  /** The attributes one class defines itself, as functions to look them up by. */
  function OwnCallNames(o: Own): Option<Option<Listing<string>>> { o.callNames }
  function OwnConstraints(o: Own): Option<seq<(Key, Entry)>> { o.constraints }
  function OwnSharedConstraints(o: Own): Option<Listing<Constraints>> { o.sharedConstraints }
  function OwnConditionalPriorities(o: Own): Option<Conditionals> { o.conditionalPriorities }
  function OwnConditionalPrioritiesPerCall(o: Own): Option<seq<(Key, Conditionals)>> { o.conditionalPrioritiesPerCall }
  function OwnAnnotationsPerCall(o: Own): Option<seq<(string, Listing<Annotation>)>> { o.annotationsPerCall }
  function OwnPriority(o: Own): Option<Option<PriorityValue>> { o.priority }
  function OwnPrioritiesPerCall(o: Own): Option<seq<(Key, PriorityValue)>> { o.prioritiesPerCall }
  function OwnCategory(o: Own): Option<nat> { o.category }
  function OwnRequiresPlanning(o: Own): Option<bool> { o.requiresPlanning }
  function OwnAnnotations(o: Own): Option<Listing<Annotation>> { o.annotations }
  function OwnPreconditions(o: Own): Option<Listing<PreconditionObject>> { o.preconditions }

  /** What the rule class resolves each attribute to: its own, an ancestor's, or Rule's default. */
  function CallNamesOf(mro: seq<DslClass>): Option<Listing<string>> {
    Inherited(mro, OwnCallNames, None)
  }

  function ConstraintsOf(mro: seq<DslClass>): seq<(Key, Entry)> {
    Inherited(mro, OwnConstraints, [])
  }

  function SharedConstraintsOf(mro: seq<DslClass>): Listing<Constraints> {
    Inherited(mro, OwnSharedConstraints, Many([]))
  }

  function ConditionalPrioritiesOf(mro: seq<DslClass>): Conditionals {
    Inherited(mro, OwnConditionalPriorities, [])
  }

  function ConditionalPrioritiesPerCallOf(mro: seq<DslClass>): seq<(Key, Conditionals)> {
    Inherited(mro, OwnConditionalPrioritiesPerCall, [])
  }

  function AnnotationsPerCallOf(mro: seq<DslClass>): seq<(string, Listing<Annotation>)> {
    Inherited(mro, OwnAnnotationsPerCall, [])
  }

  function PriorityOf(mro: seq<DslClass>): Option<PriorityValue> {
    Inherited(mro, OwnPriority, None)
  }

  function PrioritiesPerCallOf(mro: seq<DslClass>): seq<(Key, PriorityValue)> {
    Inherited(mro, OwnPrioritiesPerCall, [])
  }

  function CategoryOf(mro: seq<DslClass>): nat {
    Inherited(mro, OwnCategory, DefaultCategory)
  }

  function RequiresPlanningOf(mro: seq<DslClass>): bool {
    Inherited(mro, OwnRequiresPlanning, false)
  }

  function KeySet<V>(m: seq<(string, V)>): set<string> {
    set i | 0 <= i < |m| :: m[i].0
  }

  /**
   * _compile_known_calls: the declared call names if there are any, else the keys of
   * priorities_per_call, which must match the constraints keys unless shared constraints are
   * declared, else the keys of constraints; an empty result is refused.
   */
  function KnownCalls(mro: seq<DslClass>, constraints: seq<(string, Entry)>, prioritiesPerCall: seq<(string, PriorityValue)>): (r: Result<seq<string>, string>)
    requires |mro| > 0
    ensures r.Ok? ==> |r.value| > 0
    ensures CallNamesOf(mro).Some? && CallNamesOf(mro).value.Truthy() ==>
      r == if |EnsureList(CallNamesOf(mro).value)| > 0 then Ok(EnsureList(CallNamesOf(mro).value)) else Err(MissingCallsMessage(mro))
    ensures !(CallNamesOf(mro).Some? && CallNamesOf(mro).value.Truthy()) && |prioritiesPerCall| > 0 ==>
      r == if SharedConstraintsOf(mro).Truthy() || KeySet(prioritiesPerCall) == KeySet(constraints)
           then Ok(Keys(prioritiesPerCall)) else Err(mro[0].name + ": priorities_per_call keys differ from constraints keys")
    ensures !(CallNamesOf(mro).Some? && CallNamesOf(mro).value.Truthy()) && |prioritiesPerCall| == 0 ==>
      r == if |constraints| > 0 then Ok(Keys(constraints)) else Err(MissingCallsMessage(mro))
  {
    var callNames := CallNamesOf(mro);
    var names :=
      if callNames.Some? && callNames.value.Truthy() then Ok(EnsureList(callNames.value))
      else if |prioritiesPerCall| > 0 then
        if SharedConstraintsOf(mro).Truthy() || KeySet(prioritiesPerCall) == KeySet(constraints) then Ok(Keys(prioritiesPerCall))
        else Err(mro[0].name + ": priorities_per_call keys differ from constraints keys")
      else Ok(Keys(constraints));
    if names.Ok? && |names.value| == 0 then Err(MissingCallsMessage(mro)) else names
  }

  function MissingCallsMessage(mro: seq<DslClass>): string
    requires |mro| > 0
  {
    mro[0].name + ": call_names or priorities_per_call or constraints map is required."
  }

  /**
   * _compile_annotations: the joined annotations of the ancestors, with Artificial added when
   * one of them implies it; nothing else is added.
   */
  function AnnotationSet(mro: seq<DslClass>, impliesArtificial: set<Annotation>): (r: set<Annotation>)
    ensures forall a :: a in r <==> (a in Joined(mro, OwnAnnotations) ||
      (a == Artificial && exists b :: b in Joined(mro, OwnAnnotations) && b in impliesArtificial))
  {
    var joined := Joined(mro, OwnAnnotations);
    var compiled := set a | a in joined;
    if exists b :: b in joined && b in impliesArtificial then compiled + {Artificial} else compiled
  }

  lemma Intersects<T>(a: set<T>, b: set<T>)
    ensures a * b != {} <==> exists x :: x in a && x in b
  {
    if a * b != {} {
      var x :| x in a * b;
      assert x in a && x in b;
    }
    if x :| x in a && x in b {
      assert x in a * b;
    }
  }

  /** _compile_annotations, adding to a local set. */
  method CompileAnnotations(mro: seq<DslClass>, impliesArtificial: set<Annotation>) returns (compiledSet: set<Annotation>)
    ensures compiledSet == AnnotationSet(mro, impliesArtificial)
  {
    var joined := Joined(mro, OwnAnnotations);
    compiledSet := set a | a in joined;
    Intersects(impliesArtificial, compiledSet);
    if impliesArtificial * compiledSet != {} {
      compiledSet := compiledSet + {Artificial};
    }
  }

  /** The properties a DSL class may define itself. */
  const AllowedKeys: set<string> := {
    "annotations", "annotations_per_call", "call_names", "category", "conditional_priorities",
    "constraints", "preconditions", "priority", "priorities_per_call", "requires_planning",
    "shared_constraints", "conditional_priorities_per_call"}

  /** The public names of a class's own dictionary that are not allowed properties. */
  function Unexpected(own: Own): set<string> {
    set p | p in own.otherAttributes && !(|p| > 0 && p[0] == '_') && p !in AllowedKeys
  }

  /**
   * _validate_rule: the rule must constrain the hand, must not combine conditional_priorities
   * with constraints, must name its calls when it has conditional_priorities, and its class must
   * define no public property outside the allowed set. The first failed check is reported.
   */
  function ValidateRule(mro: seq<DslClass>): (err: Option<string>)
    requires |mro| > 0
    ensures err.None? <==>
      && (|ConstraintsOf(mro)| > 0 || SharedConstraintsOf(mro).Truthy())
      && (|ConditionalPrioritiesOf(mro)| == 0 || |ConstraintsOf(mro)| == 0)
      && (|ConditionalPrioritiesOf(mro)| == 0 || (CallNamesOf(mro).Some? && CallNamesOf(mro).value.Truthy()))
      && Unexpected(mro[0].own) == {}
  {
    var conditional := |ConditionalPrioritiesOf(mro)| > 0;
    if |ConstraintsOf(mro)| == 0 && !SharedConstraintsOf(mro).Truthy() then Some(mro[0].name + " is missing constraints")
    else if conditional && |ConstraintsOf(mro)| > 0 then Some("conditional_priorities is used with constraints")
    else if conditional && !(CallNamesOf(mro).Some? && CallNamesOf(mro).value.Truthy()) then Some("conditional_priorities is used without call_names")
    else if Unexpected(mro[0].own) != {} then Some(mro[0].name + " defines unexpected properties")
    else None
  }

  /** _default_priority: the declared priority, else the rule class itself. */
  function DefaultPriority(mro: seq<DslClass>): PriorityValue
    requires |mro| > 0
  {
    if PriorityOf(mro).Some? then PriorityOf(mro).value else RuleClass(mro[0].name)
  }

  /** CompiledRule: what compile hands to the engine. It is never changed afterwards. */
  datatype CompiledRule = CompiledRule(
    dslRule: seq<DslClass>,
    preconditions: seq<PreconditionObject>,
    knownCalls: seq<string>,
    sharedConstraints: seq<Constraints>,
    annotations: set<Annotation>,
    constraints: seq<(string, Entry)>,
    defaultPriority: PriorityValue,
    conditionalPrioritiesPerCall: seq<(string, Conditionals)>,
    prioritiesPerCall: seq<(string, PriorityValue)>)

  /**
   * compile: validation first, then the flattened constraints and priorities_per_call, then the
   * fields of the compiled rule in the order the constructor call lists them.
   */
  function Compiled(mro: seq<DslClass>, impliesArtificial: set<Annotation>): Result<CompiledRule, string>
    requires |mro| > 0
  {
    var invalid := ValidateRule(mro);
    if invalid.Some? then Err(invalid.value)
    else
      var constraints :- Flattened(ConstraintsOf(mro));
      var prioritiesPerCall :- Flattened(PrioritiesPerCallOf(mro));
      var knownCalls :- KnownCalls(mro, constraints, prioritiesPerCall);
      var conditionalPrioritiesPerCall :- Flattened(ConditionalPrioritiesPerCallOf(mro));
      Ok(CompiledRule(
        mro,
        Joined(mro, OwnPreconditions),
        knownCalls,
        Joined(mro, OwnSharedConstraints),
        AnnotationSet(mro, impliesArtificial),
        constraints,
        DefaultPriority(mro),
        conditionalPrioritiesPerCall,
        prioritiesPerCall))
  }

  /** RuleCompiler.compile, step by step. */
  method Compile(mro: seq<DslClass>, impliesArtificial: set<Annotation>) returns (r: Result<CompiledRule, string>)
    requires |mro| > 0
    ensures r == Compiled(mro, impliesArtificial)
  {
    var invalid := ValidateRule(mro);
    if invalid.Some? {
      return Err(invalid.value);
    }
    var constraints := FlattenTupleKeyedDict(ConstraintsOf(mro));
    if constraints.Err? {
      return Err(constraints.error);
    }
    var prioritiesPerCall := FlattenTupleKeyedDict(PrioritiesPerCallOf(mro));
    if prioritiesPerCall.Err? {
      return Err(prioritiesPerCall.error);
    }
    var knownCalls := KnownCalls(mro, constraints.value, prioritiesPerCall.value);
    if knownCalls.Err? {
      return Err(knownCalls.error);
    }
    var annotations := CompileAnnotations(mro, impliesArtificial);
    var conditionalPrioritiesPerCall := FlattenTupleKeyedDict(ConditionalPrioritiesPerCallOf(mro));
    if conditionalPrioritiesPerCall.Err? {
      return Err(conditionalPrioritiesPerCall.error);
    }
    r := Ok(CompiledRule(
      mro,
      Joined(mro, OwnPreconditions),
      knownCalls.value,
      Joined(mro, OwnSharedConstraints),
      annotations,
      constraints.value,
      DefaultPriority(mro),
      conditionalPrioritiesPerCall.value,
      prioritiesPerCall.value));
  }

  /**
   * compile succeeds exactly when the class passes validation, no call name repeats in the keys
   * of constraints, priorities_per_call or conditional_priorities_per_call, and the known calls
   * can be derived; the compiled rule then holds the flattened dictionaries, the joined lists of
   * the ancestors, at least one known call and the default priority.
   */
  lemma CompiledMeans(mro: seq<DslClass>, impliesArtificial: set<Annotation>)
    requires |mro| > 0
    ensures Compiled(mro, impliesArtificial).Ok? <==>
      && ValidateRule(mro).None?
      && NoRepeats(AllNames(ConstraintsOf(mro)))
      && NoRepeats(AllNames(PrioritiesPerCallOf(mro)))
      && KnownCalls(mro, FlatPairs(ConstraintsOf(mro)), FlatPairs(PrioritiesPerCallOf(mro))).Ok?
      && NoRepeats(AllNames(ConditionalPrioritiesPerCallOf(mro)))
    ensures Compiled(mro, impliesArtificial).Ok? ==>
      var r := Compiled(mro, impliesArtificial).value;
      && r.constraints == FlatPairs(ConstraintsOf(mro))
      && r.prioritiesPerCall == FlatPairs(PrioritiesPerCallOf(mro))
      && r.conditionalPrioritiesPerCall == FlatPairs(ConditionalPrioritiesPerCallOf(mro))
      && |r.knownCalls| > 0
      && r.preconditions == Joined(mro, OwnPreconditions)
      && r.sharedConstraints == Joined(mro, OwnSharedConstraints)
      && r.defaultPriority == (if PriorityOf(mro).Some? then PriorityOf(mro).value else RuleClass(mro[0].name))
  {
    FlattenedMeans(ConstraintsOf(mro));
    FlattenedMeans(PrioritiesPerCallOf(mro));
    FlattenedMeans(ConditionalPrioritiesPerCallOf(mro));
  }

  /**
   * The known calls of a compiled rule, against the DSL class: the declared call names when
   * there are any; otherwise every name the keys of priorities_per_call stand for, in order, and
   * then these are the names of the constraints keys unless shared constraints are declared;
   * otherwise every name the keys of constraints stand for.
   */
  lemma KnownCallsFromDsl(mro: seq<DslClass>, impliesArtificial: set<Annotation>)
    requires |mro| > 0 && Compiled(mro, impliesArtificial).Ok?
    ensures var known := Compiled(mro, impliesArtificial).value.knownCalls;
      var names := CallNamesOf(mro);
      var named := names.Some? && names.value.Truthy();
      var priorityNames := AllNames(PrioritiesPerCallOf(mro));
      var constraintNames := AllNames(ConstraintsOf(mro));
      && (named ==> known == EnsureList(names.value))
      && (!named && |priorityNames| > 0 ==>
            && known == priorityNames
            && (SharedConstraintsOf(mro).Truthy() || forall x :: x in priorityNames <==> x in constraintNames))
      && (!named && |priorityNames| == 0 ==> known == constraintNames)
  {
    CompiledMeans(mro, impliesArtificial);
    var p := FlatPairs(PrioritiesPerCallOf(mro));
    var d := FlatPairs(ConstraintsOf(mro));
    FlattenedMeans(PrioritiesPerCallOf(mro));
    FlattenedMeans(ConstraintsOf(mro));
    KeySetIsKeys(p);
    KeySetIsKeys(d);
  }

  lemma KeySetIsKeys<V>(m: seq<(string, V)>)
    ensures forall x :: x in KeySet(m) <==> x in Keys(m)
  {
    forall x | x in Keys(m)
      ensures x in KeySet(m)
    {
      var i :| 0 <= i < |m| && Keys(m)[i] == x;
      assert m[i].0 == x;
    }
  }

  /** requires_planning: what the rule class says, false by default. */
  function RequiresPlanning(rule: CompiledRule): bool {
    RequiresPlanningOf(rule.dslRule)
  }

  /**
   * annotations_for_call: the compiled annotations, together with those annotations_per_call
   * lists for the call's name; a call it does not name gets the compiled annotations alone.
   */
  function AnnotationsForCall(rule: CompiledRule, name: string): (r: set<Annotation>)
    ensures forall a :: a in r <==> (a in rule.annotations ||
      (Lookup(AnnotationsPerCallOf(rule.dslRule), name).Some? && a in EnsureList(Lookup(AnnotationsPerCallOf(rule.dslRule), name).value)))
  {
    var perCall := AnnotationsPerCallOf(rule.dslRule);
    if |perCall| > 0 then
      var annotations := Lookup(perCall, name);
      if annotations.Some? && annotations.value.Truthy() then rule.annotations + (set a | a in EnsureList(annotations.value))
      else rule.annotations
    else rule.annotations
  }

  /** Every precondition fits the call, `fits` answering for the history at hand. */
  predicate FitsAll(preconditions: seq<PreconditionObject>, fits: (PreconditionObject, string) -> bool, name: string) {
    forall i :: 0 <= i < |preconditions| ==> fits(preconditions[i], name)
  }

  /** _fits_preconditions: the preconditions in order, stopping at the first that does not fit. */
  method FitsPreconditions(rule: CompiledRule, fits: (PreconditionObject, string) -> bool, name: string) returns (ok: bool)
    ensures ok == FitsAll(rule.preconditions, fits, name)
    ensures !ok ==> exists i :: 0 <= i < |rule.preconditions| && !fits(rule.preconditions[i], name)
  {
    var i := 0;
    while i < |rule.preconditions|
      invariant 0 <= i <= |rule.preconditions|
      invariant forall k :: 0 <= k < i ==> fits(rule.preconditions[k], name)
    {
      if !fits(rule.preconditions[i], name) {
        return false;
      }
      i := i + 1;
    }
    return true;
  }

  /**
   * calls_over: the legal calls the rule knows whose preconditions all fit, each with the rule's
   * category.
   */
  function CallsOver(rule: CompiledRule, legalCalls: set<string>, fits: (PreconditionObject, string) -> bool): (r: set<(nat, string)>)
    ensures forall category, name :: (category, name) in r <==>
      category == CategoryOf(rule.dslRule) && name in legalCalls && name in rule.knownCalls && FitsAll(rule.preconditions, fits, name)
  {
    set name | name in legalCalls && name in rule.knownCalls && FitsAll(rule.preconditions, fits, name) :: (CategoryOf(rule.dslRule), name)
  }

  /**
   * per_call_constraints_and_priority: an entry that is a pair gives its constraints and its
   * priority, which must be present; any other entry, or none, gives itself with the per-call
   * priority or else the default priority.
   */
  function PerCallConstraintsAndPriority(rule: CompiledRule, name: string): (r: Result<(Constraints, PriorityValue), string>)
    requires |rule.dslRule| > 0
  {
    var entry := Lookup(rule.constraints, name);
    if entry.Some? && entry.value.Pair? then
      if entry.value.second.None? then Err(rule.dslRule[0].name + " is missing priority")
      else Ok((entry.value.first, entry.value.second.value))
    else
      var priority := Lookup(rule.prioritiesPerCall, name);
      var constraints := if entry.Some? then entry.value.constraints else Absent;
      Ok((constraints, if priority.Some? then priority.value else rule.defaultPriority))
  }

  /** A name occurs among a dictionary's key names exactly when some key stands for it. */
  lemma {:induction false} AllNamesMember<V>(original: seq<(Key, V)>, name: string)
    ensures name in AllNames(original) <==> exists j :: 0 <= j < |original| && name in NamesOf(original[j].0)
  {
    if |original| > 0 {
      var n := |original| - 1;
      AllNamesMember(original[..n], name);
      assert forall j :: 0 <= j < n ==> original[..n][j] == original[j];
    }
  }

  /** A flattening that succeeds has no entry for a name no key stands for. */
  lemma FlattenedLookupAbsent<V>(original: seq<(Key, V)>, name: string)
    requires Flattened(original).Ok? && name !in AllNames(original)
    ensures Lookup(Flattened(original).value, name).None?
  {
    FlattenedMeans(original);
    var r := Flattened(original).value;
    forall i | 0 <= i < |r|
      ensures r[i].0 != name
    {
      assert Keys(r)[i] == r[i].0;
    }
  }

  /**
   * The priority priorities_per_call gives a call name in the DSL class: the value of the key
   * that stands for the name, or else the default priority.
   */
  ghost function DeclaredPriority(mro: seq<DslClass>, name: string): PriorityValue
    requires |mro| > 0
  {
    var p := PrioritiesPerCallOf(mro);
    AllNamesMember(p, name);
    if name in AllNames(p) then
      var j :| 0 <= j < |p| && name in NamesOf(p[j].0);
      p[j].1
    else DefaultPriority(mro)
  }

  /**
   * per_call_constraints_and_priority against the DSL class's own dictionaries: a key standing
   * for the call name decides it (a pair gives its constraints and priority, or fails when the
   * priority is missing; plain constraints take the declared priority), and a name no key stands
   * for gets no constraints and the declared priority.
   */
  lemma PerCallFromDsl(mro: seq<DslClass>, impliesArtificial: set<Annotation>, name: string)
    requires |mro| > 0 && Compiled(mro, impliesArtificial).Ok?
    ensures var d := ConstraintsOf(mro);
      var r := PerCallConstraintsAndPriority(Compiled(mro, impliesArtificial).value, name);
      forall i :: 0 <= i < |d| && name in NamesOf(d[i].0) ==>
        && (d[i].1.Pair? && d[i].1.second.None? ==> r == Err(mro[0].name + " is missing priority"))
        && (d[i].1.Pair? && d[i].1.second.Some? ==> r == Ok((d[i].1.first, d[i].1.second.value)))
        && (d[i].1.Plain? ==> r == Ok((d[i].1.constraints, DeclaredPriority(mro, name))))
    ensures name !in AllNames(ConstraintsOf(mro)) ==>
      PerCallConstraintsAndPriority(Compiled(mro, impliesArtificial).value, name) == Ok((Absent, DeclaredPriority(mro, name)))
  {
    var rule := Compiled(mro, impliesArtificial).value;
    var d := ConstraintsOf(mro);
    assert rule.constraints == Flattened(d).value;
    assert rule.defaultPriority == DefaultPriority(mro);
    DeclaredPriorityLookup(mro, name);
    forall i | 0 <= i < |d| && name in NamesOf(d[i].0)
      ensures Lookup(rule.constraints, name) == Some(d[i].1)
    {
      FlattenedLookup(d, i, name);
    }
    if name !in AllNames(d) {
      FlattenedLookupAbsent(d, name);
    }
  }

  /** The priority the flattened priorities_per_call gives a name, or else the default, is the declared one. */
  lemma DeclaredPriorityLookup(mro: seq<DslClass>, name: string)
    requires |mro| > 0 && Flattened(PrioritiesPerCallOf(mro)).Ok?
    ensures var found := Lookup(Flattened(PrioritiesPerCallOf(mro)).value, name);
      (if found.Some? then found.value else DefaultPriority(mro)) == DeclaredPriority(mro, name)
  {
    var p := PrioritiesPerCallOf(mro);
    AllNamesMember(p, name);
    if name in AllNames(p) {
      var j :| 0 <= j < |p| && name in NamesOf(p[j].0);
      FlattenedLookup(p, j, name);
      forall j' | 0 <= j' < |p| && name in NamesOf(p[j'].0)
        ensures p[j'].1 == p[j].1
      {
        FlattenedLookup(p, j', name);
      }
    } else {
      FlattenedLookupAbsent(p, name);
    }
  }

  /** Every constraint object of a list can be asked for its formula when the formula is total. */
  lemma {:induction false} TotalEvaluable(spec: Constraints, exprOf: ConstraintObject -> Formula)
    ensures Evaluable(spec, exprOf)
    decreases spec
  {
    match spec
    case Items(xs) =>
      forall i | 0 <= i < |xs|
        ensures Evaluable(xs[i], exprOf)
      {
        TotalEvaluable(xs[i], exprOf);
      }
    case _ =>
  }

  /** exprs_from_constraints for this rule system, whose constraint objects always have a formula. */
  function Exprs(spec: Constraints, exprOf: ConstraintObject -> Formula): (r: seq<Formula>)
    ensures Evaluable(spec, exprOf) && r == ExprsFrom(spec, exprOf)
  {
    TotalEvaluable(spec, exprOf);
    ExprsFrom(spec, exprOf)
  }

  /**
   * _constraint_exprs_for_call: the formulas of the call's own constraints, when there are any,
   * then those of the shared constraints.
   */
  function ConstraintExprsForCall(rule: CompiledRule, name: string, exprOf: ConstraintObject -> Formula): (r: Result<seq<Formula>, string>)
    requires |rule.dslRule| > 0
    ensures r.Ok? <==> PerCallConstraintsAndPriority(rule, name).Ok?
  {
    var pc :- PerCallConstraintsAndPriority(rule, name);
    var own := if pc.0.Falsy() then [] else Exprs(pc.0, exprOf);
    Ok(own + Exprs(Items(rule.sharedConstraints), exprOf))
  }

  /** What a rule asks of a hand for a call, read directly: the call's own constraints and every shared one. */
  ghost predicate ConstraintsHold(rule: CompiledRule, name: string, exprOf: ConstraintObject -> Formula, sh: Shape)
    requires |rule.dslRule| > 0 && PerCallConstraintsAndPriority(rule, name).Ok?
  {
    && SpecHolds(PerCallConstraintsAndPriority(rule, name).value.0, exprOf, sh)
    && forall i :: 0 <= i < |rule.sharedConstraints| ==> SpecHolds(rule.sharedConstraints[i], exprOf, sh)
  }

  /** The formulas for a call hold at a hand exactly when its own and the shared constraints do. */
  lemma ConstraintExprsForCallMeans(rule: CompiledRule, name: string, exprOf: ConstraintObject -> Formula, sh: Shape)
    requires |rule.dslRule| > 0 && PerCallConstraintsAndPriority(rule, name).Ok?
    ensures HoldsAll(ConstraintExprsForCall(rule, name, exprOf).value, sh) <==> ConstraintsHold(rule, name, exprOf, sh)
  {
    var perCall := PerCallConstraintsAndPriority(rule, name).value.0;
    var shared := Items(rule.sharedConstraints);
    var own := if perCall.Falsy() then [] else Exprs(perCall, exprOf);
    assert ConstraintExprsForCall(rule, name, exprOf).value == own + Exprs(shared, exprOf);
    HoldsAllConcat(own, Exprs(shared, exprOf), sh);
    ExprsFromMeans(perCall, exprOf, sh);
    ExprsFromMeans(shared, exprOf, sh);
  }

  /** What meaning_of yields for (condition, priority) pairs: each priority with the call's formulas and its condition's. */
  function Conditioned(conditionals: Conditionals, exprs: seq<Formula>, exprOf: ConstraintObject -> Formula): (r: seq<(PriorityValue, Formula)>)
    ensures |r| == |conditionals|
  {
    seq(|conditionals|, i requires 0 <= i < |conditionals| => (conditionals[i].1, And(exprs + Exprs(conditionals[i].0, exprOf))))
  }

  /** The call's conditional_priorities_per_call entry, or none. */
  function PerCallConditionals(rule: CompiledRule, name: string): Conditionals {
    var perCall := Lookup(rule.conditionalPrioritiesPerCall, name);
    if perCall.Some? then perCall.value else []
  }

  /**
   * A condition that exprs_from_constraints hands back as an itertools.chain rather than a list:
   * a non-empty list. Adding it to the call's list of formulas raises TypeError.
   */
  predicate Chained(condition: Constraints) {
    condition.Items? && |condition.items| > 0
  }

  predicate AnyChained(conditionals: Conditionals) {
    exists i :: 0 <= i < |conditionals| && Chained(conditionals[i].0)
  }

  /** The TypeError of `list + itertools.chain`. */
  const ListPlusChain := "can only concatenate list (not \"itertools.chain\") to list"

  /**
   * meaning_of as written: the call's formulas first, so a missing priority fails first; then a
   * TypeError when some condition it goes through is a non-empty list; otherwise the meanings.
   */
  function MeaningOf(rule: CompiledRule, name: string, exprOf: ConstraintObject -> Formula): (r: Result<seq<(PriorityValue, Formula)>, string>)
    requires |rule.dslRule| > 0
  {
    var pc := PerCallConstraintsAndPriority(rule, name);
    if pc.Err? then Err(pc.error)
    else if AnyChained(PerCallConditionals(rule, name)) || AnyChained(ConditionalPrioritiesOf(rule.dslRule)) then Err(ListPlusChain)
    else MeaningOfCorrected(rule, name, exprOf)
  }

  /**
   * meaning_of as intended: the call's conditional_priorities_per_call, then the rule's
   * conditional_priorities, each with its condition's formulas added to the call's, and last the
   * call's priority with the call's formulas alone.
   */
  function MeaningOfCorrected(rule: CompiledRule, name: string, exprOf: ConstraintObject -> Formula): (r: Result<seq<(PriorityValue, Formula)>, string>)
    requires |rule.dslRule| > 0
  {
    var exprs :- ConstraintExprsForCall(rule, name, exprOf);
    var priority := PerCallConstraintsAndPriority(rule, name).value.1;
    Ok(Conditioned(PerCallConditionals(rule, name), exprs, exprOf)
      + Conditioned(ConditionalPrioritiesOf(rule.dslRule), exprs, exprOf)
      + [(priority, And(exprs))])
  }

  /**
   * The conditions meaning_of goes through for a call, in order, each with its priority: the
   * per-call ones, the rule's, and finally no condition with the call's own priority.
   */
  ghost function Conditions(rule: CompiledRule, name: string): Conditionals
    requires |rule.dslRule| > 0 && PerCallConstraintsAndPriority(rule, name).Ok?
  {
    PerCallConditionals(rule, name)
      + ConditionalPrioritiesOf(rule.dslRule)
      + [(Absent, PerCallConstraintsAndPriority(rule, name).value.1)]
  }

  lemma ConditionedMeans(conditionals: Conditionals, exprs: seq<Formula>, exprOf: ConstraintObject -> Formula, sh: Shape, i: nat)
    requires i < |conditionals|
    ensures Conditioned(conditionals, exprs, exprOf)[i].0 == conditionals[i].1
    ensures Holds(Conditioned(conditionals, exprs, exprOf)[i].1, sh) <==> HoldsAll(exprs, sh) && SpecHolds(conditionals[i].0, exprOf, sh)
  {
    var cond := Exprs(conditionals[i].0, exprOf);
    assert Holds(And(exprs + cond), sh) <==> HoldsAll(exprs + cond, sh);
    HoldsAllConcat(exprs, cond, sh);
    ExprsFromMeans(conditionals[i].0, exprOf, sh);
  }

  /** The meanings of per-call conditions, rule conditions and the fallback, against the conditions themselves. */
  lemma MeaningsMean(first: Conditionals, second: Conditionals, priority: PriorityValue, exprs: seq<Formula>,
                     exprOf: ConstraintObject -> Formula, sh: Shape)
    ensures var r := Conditioned(first, exprs, exprOf) + Conditioned(second, exprs, exprOf) + [(priority, And(exprs))];
      var conditions := first + second + [(Absent, priority)];
      && |r| == |conditions|
      && forall i :: 0 <= i < |r| ==>
        && r[i].0 == conditions[i].1
        && (Holds(r[i].1, sh) <==> HoldsAll(exprs, sh) && SpecHolds(conditions[i].0, exprOf, sh))
  {
    var r := Conditioned(first, exprs, exprOf) + Conditioned(second, exprs, exprOf) + [(priority, And(exprs))];
    var conditions := first + second + [(Absent, priority)];
    forall i | 0 <= i < |r|
      ensures r[i].0 == conditions[i].1
      ensures Holds(r[i].1, sh) <==> HoldsAll(exprs, sh) && SpecHolds(conditions[i].0, exprOf, sh)
    {
      if i < |first| {
        ConditionedMeans(first, exprs, exprOf, sh, i);
      } else if i < |first| + |second| {
        ConditionedMeans(second, exprs, exprOf, sh, i - |first|);
      } else {
        assert Holds(And(exprs), sh) <==> HoldsAll(exprs, sh);
      }
    }
  }

  /**
   * The intended meaning_of fails exactly when the call's priority is missing; otherwise it
   * yields one (priority, formula) per condition, in order, and each formula holds at a hand
   * exactly when the call's constraints and that condition do.
   */
  lemma MeaningOfCorrectedMeans(rule: CompiledRule, name: string, exprOf: ConstraintObject -> Formula, sh: Shape)
    requires |rule.dslRule| > 0
    ensures MeaningOfCorrected(rule, name, exprOf).Ok? <==> PerCallConstraintsAndPriority(rule, name).Ok?
    ensures MeaningOfCorrected(rule, name, exprOf).Ok? ==>
      var r := MeaningOfCorrected(rule, name, exprOf).value;
      var conditions := Conditions(rule, name);
      && |r| == |conditions|
      && forall i :: 0 <= i < |r| ==>
        && r[i].0 == conditions[i].1
        && (Holds(r[i].1, sh) <==> ConstraintsHold(rule, name, exprOf, sh) && SpecHolds(conditions[i].0, exprOf, sh))
  {
    if PerCallConstraintsAndPriority(rule, name).Ok? {
      var exprs := ConstraintExprsForCall(rule, name, exprOf).value;
      ConstraintExprsForCallMeans(rule, name, exprOf, sh);
      var priority := PerCallConstraintsAndPriority(rule, name).value.1;
      MeaningsMean(PerCallConditionals(rule, name), ConditionalPrioritiesOf(rule.dslRule), priority, exprs, exprOf, sh);
    }
  }

  /**
   * meaning_of as written fails with the missing-priority error when the priority is missing,
   * else with a TypeError when a condition it goes through is a non-empty list, and otherwise
   * yields exactly the intended meanings.
   */
  lemma MeaningOfMeans(rule: CompiledRule, name: string, exprOf: ConstraintObject -> Formula)
    requires |rule.dslRule| > 0
    ensures MeaningOf(rule, name, exprOf).Ok? <==>
      && PerCallConstraintsAndPriority(rule, name).Ok?
      && !AnyChained(PerCallConditionals(rule, name))
      && !AnyChained(ConditionalPrioritiesOf(rule.dslRule))
    ensures PerCallConstraintsAndPriority(rule, name).Err? ==>
      MeaningOf(rule, name, exprOf) == Err(PerCallConstraintsAndPriority(rule, name).error)
    ensures PerCallConstraintsAndPriority(rule, name).Ok? && MeaningOf(rule, name, exprOf).Err? ==>
      MeaningOf(rule, name, exprOf) == Err(ListPlusChain)
    ensures MeaningOf(rule, name, exprOf).Ok? ==> MeaningOf(rule, name, exprOf) == MeaningOfCorrected(rule, name, exprOf)
  {
    var sh := Shape(0, 0, 0, 0, 0);
    MeaningOfCorrectedMeans(rule, name, exprOf, sh);
  }

  /**
   * A rule class naming its call, with a shared constraint, a priority and one conditional
   * priority whose condition is a list of two formulas.
   */
  function SplitConditionRule(): (mro: seq<DslClass>)
    ensures |mro| == 1
  {
    var fiveHearts := Expr(Atom(V(HeartsLen), AtLeast, Lit(5)));
    var opening := Expr(Atom(V(Points), AtLeast, Lit(12)));
    var strong := Expr(Atom(V(Points), AtLeast, Lit(16)));
    var high := EnumValue(Rules.Priority("opening_priorities", 0));
    var low := EnumValue(Rules.Priority("opening_priorities", 1));
    [DslClass("SplitCondition", Own(
      None, None, None, Some(Some(One("1H"))), None, Some(One(fiveHearts)), None,
      Some([(Items([opening, strong]), high)]), None, None, Some(Some(low)), None, {}))]
  }

  /**
   * The class compiles, yet meaning_of for its call raises the TypeError, where the intended
   * meaning_of yields the conditional priority and then the rule's priority.
   */
  lemma ListConditionRaises(exprOf: ConstraintObject -> Formula)
    ensures Compiled(SplitConditionRule(), {}).Ok?
    ensures var rule := Compiled(SplitConditionRule(), {}).value;
      && MeaningOf(rule, "1H", exprOf) == Err(ListPlusChain)
      && MeaningOfCorrected(rule, "1H", exprOf).Ok?
      && |MeaningOfCorrected(rule, "1H", exprOf).value| == 2
  {
    var mro := SplitConditionRule();
    assert ValidateRule(mro).None? by {
      assert Unexpected(mro[0].own) == {};
    }
    var rule := Compiled(mro, {}).value;
    assert Chained(ConditionalPrioritiesOf(rule.dslRule)[0].0);
  }
}
