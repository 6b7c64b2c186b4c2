/** The search that rejects configuration schemas with a non-strict model anywhere inside. */
module ConfigSchema {

  /** A field annotation: a model class, or any other type form with its type arguments. */
  datatype Annotation = Model(t: nat) | Form(arguments: seq<Annotation>)

  datatype Field = Field(name: string, annotation: Annotation)

  datatype ModelClass = ModelClass(strict: bool, fields: seq<Field>)

  /** The model classes of a program.  Their annotations may refer to each other in cycles. */
  type Schema = map<nat, ModelClass>

  /** `_model_types_in_annotation` */
  function ModelTypes(a: Annotation): set<nat>
    decreases a, 0
  {
    match a
    case Model(t) => {t}
    case Form(arguments) => ModelTypesOfAll(arguments)
  }

  function ModelTypesOfAll(arguments: seq<Annotation>): set<nat>
    decreases arguments, 1
  {
    if arguments == [] then {} else ModelTypes(arguments[0]) + ModelTypesOfAll(arguments[1..])
  }

  predicate Mentions(a: Annotation, t: nat) {
    match a
    case Model(t') => t' == t
    case Form(arguments) => exists i :: 0 <= i < |arguments| && Mentions(arguments[i], t)
  }

  /** The collected types are those that occur anywhere in the annotation. */
  lemma {:induction false} ModelTypesAreMentioned(a: Annotation, t: nat)
    ensures t in ModelTypes(a) <==> Mentions(a, t)
    decreases a, 0
  {
    if a.Form? {
      ModelTypesOfAllAreMentioned(a.arguments, t);
    }
  }

  lemma {:induction false} ModelTypesOfAllAreMentioned(arguments: seq<Annotation>, t: nat)
    ensures t in ModelTypesOfAll(arguments) <==> exists i :: 0 <= i < |arguments| && Mentions(arguments[i], t)
    decreases arguments, 1
  {
    if arguments != [] {
      ModelTypesAreMentioned(arguments[0], t);
      ModelTypesOfAllAreMentioned(arguments[1..], t);
      if Mentions(arguments[0], t) {
        assert t in ModelTypesOfAll(arguments);
      }
      if t in ModelTypesOfAll(arguments[1..]) {
        var i :| 0 <= i < |arguments[1..]| && Mentions(arguments[1..][i], t);
        assert Mentions(arguments[i + 1], t);
      }
      if i :| 0 <= i < |arguments| && Mentions(arguments[i], t) {
        assert i > 0 ==> arguments[1..][i - 1] == arguments[i];
      }
    }
  }

  ghost predicate Wellformed(schema: Schema) {
    forall t :: t in schema ==> Successors(schema[t].fields) <= schema.Keys
  }

  function Successors(fields: seq<Field>): set<nat> {
    if fields == [] then {} else ModelTypes(fields[0].annotation) + Successors(fields[1..])
  }

  lemma {:induction false} SuccessorsAppend(a: seq<Field>, b: seq<Field>)
    ensures Successors(a + b) == Successors(a) + Successors(b)
  {
    if a == [] {
      assert a + b == b;
    } else {
      SuccessorsAppend(a[1..], b);
      assert (a + b)[1..] == a[1..] + b;
    }
  }

  /** A chain of field names that leads from one model class to another. */
  ghost predicate FieldPath(schema: Schema, from: nat, names: seq<string>, to: nat)
    decreases |names|
  {
    if names == [] then from == to
    else
      from in schema &&
      exists i, next :: 0 <= i < |schema[from].fields| && StartsWith(schema[from].fields[i], names[0], next) &&
        FieldPath(schema, next, names[1..], to)
  }

  predicate StartsWith(f: Field, name: string, next: nat) {
    f.name == name && next in ModelTypes(f.annotation)
  }

  /** Every model class that field annotations lead to is strict. */
  ghost predicate StrictThroughout(schema: Schema, root: nat) {
    forall names, t :: FieldPath(schema, root, names, t) ==> t in schema && schema[t].strict
  }

  datatype Verdict = Accepted | Rejected(location: seq<string>)

  /** The rejected location is a field path to a class that is not strict. */
  ghost predicate Names(schema: Schema, root: nat, location: seq<string>, prefix: seq<string>) {
    && prefix <= location
    && exists bad :: FieldPath(schema, root, location[|prefix|..], bad) && bad in schema && !schema[bad].strict
  }

  lemma NamesThrough(schema: Schema, from: nat, i: nat, next: nat, location: seq<string>, prefix: seq<string>)
    requires from in schema && i < |schema[from].fields| && next in ModelTypes(schema[from].fields[i].annotation)
    requires Names(schema, next, location, prefix + [schema[from].fields[i].name])
    ensures Names(schema, from, location, prefix)
  {
    var deeper := prefix + [schema[from].fields[i].name];
    var bad :| FieldPath(schema, next, location[|deeper|..], bad) && bad in schema && !schema[bad].strict;
    var names := location[|prefix|..];
    assert names[0] == location[|prefix|] == deeper[|prefix|] == schema[from].fields[i].name;
    assert names[1..] == location[|deeper|..];
    assert StartsWith(schema[from].fields[i], names[0], next);
  }

  /** The recursion of `_validate_strict_model_schema`, with its shared set of checked classes. */
  class Search {
    var checked: set<nat>

    constructor ()
      ensures checked == {}
    {
      checked := {};
    }

    /** New classes are strict and lead only to checked ones; classes checked before the call may
        still be waiting for callers further up. */
    ghost predicate Explored(schema: Schema, before: set<nat>)
      reads this
    {
      && before <= checked <= schema.Keys
      && forall t :: t in checked && t !in before ==>
        t in schema && schema[t].strict && Successors(schema[t].fields) <= checked
    }

    method Validate(schema: Schema, t: nat, location: seq<string>) returns (v: Verdict)
      requires Wellformed(schema) && t in schema && checked <= schema.Keys
      modifies this
      ensures v.Accepted? ==> t in checked && Explored(schema, old(checked))
      ensures v.Rejected? ==> Names(schema, t, v.location, location)
      ensures old(checked) <= checked <= schema.Keys
      decreases schema.Keys - checked
    {
      if t in checked {
        return Accepted;
      }
      checked := checked + {t};
      if !schema[t].strict {
        assert location[|location|..] == [];
        assert FieldPath(schema, t, location[|location|..], t);
        return Rejected(location);
      }
      var fields, i := schema[t].fields, 0;
      assert fields[0..] == fields;
      while i < |fields|
        invariant 0 <= i <= |fields|
        invariant old(checked) + {t} <= checked <= schema.Keys
        invariant Explored(schema, old(checked) + {t})
        invariant Successors(fields[..i]) <= checked
      {
        var nested := ModelTypes(fields[i].annotation);
        ghost var all := nested;
        SuccessorsAppend(fields[..i], [fields[i]]);
        SuccessorsAppend(fields[..i + 1], fields[i + 1..]);
        assert fields[..i] + [fields[i]] == fields[..i + 1];
        assert fields[..i + 1] + fields[i + 1..] == fields;
        while nested != {}
          invariant nested <= all
          invariant old(checked) + {t} <= checked <= schema.Keys
          invariant Explored(schema, old(checked) + {t})
          invariant Successors(fields[..i]) <= checked
          invariant all - nested <= checked
          decreases nested
        {
          var next :| next in nested;
          v := Validate(schema, next, location + [fields[i].name]);
          if v.Rejected? {
            NamesThrough(schema, t, i, next, v.location, location);
            return v;
          }
          nested := nested - {next};
        }
        i := i + 1;
      }
      assert fields[..i] == fields;
      return Accepted;
    }
  }

  lemma {:induction false} ClosedSetsCoverPaths(schema: Schema, closed: set<nat>, from: nat, names: seq<string>, to: nat)
    requires forall t :: t in closed ==> t in schema && Successors(schema[t].fields) <= closed
    requires from in closed && FieldPath(schema, from, names, to)
    ensures to in closed
    decreases |names|
  {
    if names != [] {
      var i, next :| 0 <= i < |schema[from].fields| && StartsWith(schema[from].fields[i], names[0], next) &&
        FieldPath(schema, next, names[1..], to);
      var fields := schema[from].fields;
      assert fields == fields[..i] + ([fields[i]] + fields[i + 1..]);
      SuccessorsAppend(fields[..i], [fields[i]] + fields[i + 1..]);
      SuccessorsAppend([fields[i]], fields[i + 1..]);
      ClosedSetsCoverPaths(schema, closed, next, names[1..], to);
    }
  }

  /** The outermost call, with its fresh set of checked classes: it terminates on cyclic schemas,
      and accepts exactly when every class that fields lead to is strict, whatever order the
      sets are iterated in; a rejection names a genuine field path to an offender. */
  method ValidateStrictModelSchema(schema: Schema, root: nat, location: seq<string>) returns (v: Verdict)
    requires Wellformed(schema) && root in schema
    ensures v.Accepted? <==> StrictThroughout(schema, root)
    ensures v.Rejected? ==> Names(schema, root, v.location, location)
  {
    var search := new Search();
    v := search.Validate(schema, root, location);
    if v.Accepted? {
      forall names, t | FieldPath(schema, root, names, t) ensures t in schema && schema[t].strict {
        ClosedSetsCoverPaths(schema, search.checked, root, names, t);
      }
    }
  }
}
