/** The run-time objects of src/LoxEnvironment.cs, src/LoxFunction.cs,
    src/LoxClass.cs and src/LoxInstance.cs, and the values they hold. */
module Runtime {
  import opened Ast

  /** A run-time value: the original's `object`, where a missing object
      (`null`) is `NilValue` and a `double` is a `real`. Functions, classes and
      instances are compared by reference, as `Equals` does on them. */
  datatype Value =
    | NilValue
    | Bool(b: bool)
    | Num(n: real)
    | Str(s: string)
    | FunctionValue(f: LoxFunction)
    | BoundMethod(fn: LoxFunction, self: LoxInstance)  // what `fn.Bind(self)` returns
    | ClassValue(c: LoxClass)
    | InstanceValue(i: LoxInstance)

  datatype RuntimeError = RuntimeError(token: Token, message: string)

  /** The value of a `Literal` node. */
  function LiteralValue(lit: Lit): Value
  {
    match lit
    case NilLit => NilValue
    case BoolLit(b) => Bool(b)
    case NumLit(n) => Num(n)
    case StrLit(s) => Str(s)
  }

  /** The first frame, innermost first, that holds `name`. */
  function Lookup(frames: seq<map<string, Value>>, name: string): (r: Option<Value>)
    ensures r.Some? <==> exists i :: 0 <= i < |frames| && name in frames[i]
    ensures r.Some? ==> exists i :: && 0 <= i < |frames| && name in frames[i] && r.value == frames[i][name]
                                    && forall j :: 0 <= j < i ==> name !in frames[j]
  {
    if frames == [] then None
    else if name in frames[0] then Some(frames[0][name])
    else
      var r := Lookup(frames[1..], name);
      assert forall i :: 0 < i < |frames| ==> frames[i] == frames[1..][i - 1];
      r
  }

  /** The `get` extension of src/Extensions.cs on a string dictionary: a
      missing key gives `null`. */
  function GetOrNil(values: map<string, Value>, key: string): (v: Value)
    ensures key in values ==> v == values[key]
    ensures key !in values ==> v == NilValue
  {
    if key in values then values[key] else NilValue
  }

  /** The `get` extension on the node-to-depth dictionary: a missing key
      gives no depth. */
  function DepthOf(locals: map<NodeId, int>, key: NodeId): (r: Option<int>)
    ensures r.Some? <==> key in locals
    ensures r.Some? ==> r.value == locals[key]
  {
    if key in locals then Some(locals[key]) else None
  }

  class LoxEnvironment {
    var values: map<string, Value>
    const enclosing: LoxEnvironment?
    /** This environment, then the environments enclosing it, outermost last. */
    ghost const Chain: seq<LoxEnvironment>

    ghost predicate Valid()
      decreases |Chain|
    {
      && |Chain| >= 1 && Chain[0] == this
      && (enclosing == null ==> |Chain| == 1)
      && (enclosing != null ==> Chain[1..] == enclosing.Chain && enclosing.Valid())
    }

    /** The global environment. */
    constructor ()
      ensures Valid() && values == map[] && enclosing == null && Chain == [this]
    {
      values := map[];
      enclosing := null;
      Chain := [this];
    }

    constructor Enclosed(enclosing: LoxEnvironment)
      requires enclosing.Valid()
      ensures Valid() && values == map[] && this.enclosing == enclosing && Chain == [this] + enclosing.Chain
    {
      values := map[];
      this.enclosing := enclosing;
      Chain := [this] + enclosing.Chain;
    }

    /** The maps of the chain, innermost first. */
    function Frames(): (fs: seq<map<string, Value>>)
      requires Valid()
      reads Chain
      ensures |fs| == |Chain| && fs[0] == values
      ensures forall i :: 0 <= i < |Chain| ==> fs[i] == Chain[i].values
      decreases |Chain|
    {
      [values] + (if enclosing == null then [] else enclosing.Frames())
    }

    /** A key already present is overwritten and then `Add` throws:
        `duplicate` reports that exception. */
    method Define(key: string, value: Value) returns (duplicate: bool)
      requires Valid()
      modifies this
      ensures values == old(values)[key := value]
      ensures duplicate <==> key in old(values)
      ensures Frames() == old(Frames())[0 := values]
    {
      ChainSuffixes();
      duplicate := key in values;
      values := values[key := value];
    }

    /** Looks in this environment, then in the enclosing ones. */
    method Get(name: Token) returns (v: Value, err: Option<RuntimeError>)
      requires Valid()
      ensures Lookup(Frames(), name.lexeme).Some? ==> err.None? && v == Lookup(Frames(), name.lexeme).value
      ensures Lookup(Frames(), name.lexeme).None? ==>
                err == Some(RuntimeError(name, "Undefined variable '" + name.lexeme + "'"))
      decreases |Chain|
    {
      if name.lexeme in values {
        return values[name.lexeme], None;
      }
      if enclosing != null {
        v, err := enclosing.Get(name);
        return;
      }
      return NilValue, Some(RuntimeError(name, "Undefined variable '" + name.lexeme + "'"));
    }

    /** Assigns in this environment only; the enclosing ones are never
        consulted. */
    method Assign(name: Token, value: Value) returns (err: Option<RuntimeError>)
      requires Valid()
      modifies this
      ensures err.None? <==> name.lexeme in old(values)
      ensures err.Some? ==> err.value == RuntimeError(name, "Undefined variable " + name.lexeme) && values == old(values)
      ensures err.None? ==> values == old(values)[name.lexeme := value]
      ensures Frames() == old(Frames())[0 := values]
    {
      ChainSuffixes();
      if name.lexeme !in values {
        return Some(RuntimeError(name, "Undefined variable " + name.lexeme));
      }
      values := values[name.lexeme := value];
      err := None;
    }

    /** Follows `enclosing` `distance` times. Past the outermost environment
        the result is null, and one step further dereferences null: `fault`. */
    method Ancestor(distance: nat) returns (env: LoxEnvironment?, fault: bool)
      requires Valid()
      ensures fault <==> distance > |Chain|
      ensures !fault ==> env == if distance < |Chain| then Chain[distance] else null
    {
      env := this;
      var i := 0;
      while i < distance
        invariant 0 <= i <= distance && i <= |Chain|
        invariant env == if i < |Chain| then Chain[i] else null
        invariant env != null ==> env.Valid() && env.Chain == Chain[i..]
      {
        if env == null {
          return null, true;
        }
        ChainStep(env, i);
        env := env.enclosing;
        i := i + 1;
      }
      fault := false;
    }

    /** Going one step out of `Chain[i]` lands on `Chain[i + 1]`. */
    lemma ChainStep(env: LoxEnvironment, i: nat)
      requires Valid() && i < |Chain| && env == Chain[i] && env.Valid() && env.Chain == Chain[i..]
      ensures env.enclosing == if i + 1 < |Chain| then Chain[i + 1] else null
      ensures env.enclosing != null ==> env.enclosing.Valid() && env.enclosing.Chain == Chain[i + 1..]
    {
    }

    /** Every environment of the chain carries the rest of the chain, so no
        environment appears in it twice. */
    lemma {:induction false} ChainSuffixes()
      requires Valid()
      ensures forall i :: 0 <= i < |Chain| ==> Chain[i].Valid() && Chain[i].Chain == Chain[i..]
      ensures forall i, j :: 0 <= i < j < |Chain| ==> Chain[i] != Chain[j]
      decreases |Chain|
    {
      if enclosing != null {
        enclosing.ChainSuffixes();
        assert forall i :: 0 < i < |Chain| ==> Chain[i] == enclosing.Chain[i - 1] && Chain[i..] == enclosing.Chain[i - 1..];
      }
      forall i, j | 0 <= i < j < |Chain|
        ensures Chain[i] != Chain[j]
      {
        assert |Chain[i].Chain| != |Chain[j].Chain|;
      }
    }

    /** Reads a name `distance` steps out; a missing name reads as nil. */
    method GetAt(distance: nat, name: string) returns (v: Value, fault: bool)
      requires Valid()
      ensures fault <==> distance >= |Chain|
      ensures !fault ==> v == GetOrNil(Frames()[distance], name)
    {
      var env;
      env, fault := Ancestor(distance);
      if fault || env == null {
        return NilValue, true;
      }
      v := GetOrNil(env.values, name);
    }

    /** Writes a name `distance` steps out, whether or not it is there. */
    method AssignAt(distance: nat, name: Token, value: Value) returns (fault: bool)
      requires Valid()
      modifies Chain
      ensures fault <==> distance >= |Chain|
      ensures !fault ==> Frames() == old(Frames())[distance := old(Frames())[distance][name.lexeme := value]]
      ensures fault ==> Frames() == old(Frames())
    {
      var env;
      env, fault := Ancestor(distance);
      if fault || env == null {
        return true;
      }
      ChainSuffixes();
      ghost var before := Frames();
      env.values := env.values[name.lexeme := value];
      ghost var after := before[distance := before[distance][name.lexeme := value]];
      ghost var now := Frames();
      assert |now| == |after|;
      forall i | 0 <= i < |Chain|
        ensures now[i] == after[i]
      {
        if i != distance {
          assert Chain[i] != env;
        }
      }
    }
  }

  class LoxFunction {
    const declaration: FunctionDecl
    const closure: LoxEnvironment

    constructor (declaration: FunctionDecl, closure: LoxEnvironment)
      ensures this.declaration == declaration && this.closure == closure
    {
      this.declaration := declaration;
      this.closure := closure;
    }

    function Arity(): nat
    {
      |declaration.params|
    }
  }

  /** The name of the initializer method. */
  const InitName := "_$init"

  class LoxClass {
    const name: string
    const methods: map<string, LoxFunction>

    constructor (name: string, methods: map<string, LoxFunction>)
      ensures this.name == name && this.methods == methods
    {
      this.name := name;
      this.methods := methods;
    }

    function FindMethod(name: string): (r: Option<LoxFunction>)
      ensures r.Some? <==> name in methods
      ensures r.Some? ==> r.value == methods[name]
    {
      if name in methods then Some(methods[name]) else None
    }

    /** A class takes as many arguments as its initializer, or none. */
    function Arity(): (n: nat)
      ensures InitName in methods ==> n == methods[InitName].Arity()
      ensures InitName !in methods ==> n == 0
    {
      match FindMethod(InitName)
      case Some(initializer) => initializer.Arity()
      case None => 0
    }

    /** A call makes a fresh instance with no fields. The initializer, when
        there is one, would then be bound to it and called: it is returned
        instead. */
    method Call() returns (instance: LoxInstance, initializer: Option<LoxFunction>)
      ensures fresh(instance) && instance.loxClass == this && instance.fields == map[]
      ensures initializer == FindMethod(InitName)
    {
      instance := new LoxInstance(this);
      initializer := FindMethod(InitName);
    }
  }

  /** A property read: a field, else a method bound to the instance, else
      nothing. */
  function Property(fields: map<string, Value>, cls: LoxClass, self: LoxInstance, name: string): (r: Option<Value>)
    ensures name in fields ==> r == Some(fields[name])
    ensures name !in fields && name in cls.methods ==> r == Some(BoundMethod(cls.methods[name], self))
    ensures r.None? <==> name !in fields && name !in cls.methods
  {
    if name in fields then Some(fields[name])
    else match cls.FindMethod(name)
      case Some(m) => Some(BoundMethod(m, self))
      case None => None
  }

  class LoxInstance {
    const loxClass: LoxClass
    var fields: map<string, Value>

    constructor (loxClass: LoxClass)
      ensures this.loxClass == loxClass && fields == map[]
    {
      this.loxClass := loxClass;
      fields := map[];
    }

    method Get(name: Token) returns (v: Value, err: Option<RuntimeError>)
      ensures Property(fields, loxClass, this, name.lexeme).Some? ==>
                err.None? && v == Property(fields, loxClass, this, name.lexeme).value
      ensures Property(fields, loxClass, this, name.lexeme).None? ==>
                err == Some(RuntimeError(name, "Undefined property " + name.lexeme))
    {
      if name.lexeme in fields {
        return fields[name.lexeme], None;
      }
      var found := loxClass.FindMethod(name.lexeme);
      if found.Some? {
        return BoundMethod(found.value, this), None;
      }
      return NilValue, Some(RuntimeError(name, "Undefined property " + name.lexeme));
    }

    method Set(name: Token, value: Value)
      modifies this
      ensures fields == old(fields)[name.lexeme := value]
    {
      fields := fields[name.lexeme := value];
    }
  }

  /** `ToString` and string interpolation of a value: `null` interpolates
      as the empty string and booleans print as `True` and `False`. The
      text of a number is a parameter. */
  function Text(v: Value, numText: real -> string): string
  {
    match v
    case NilValue => ""
    case Bool(b) => if b then "True" else "False"
    case Num(n) => numText(n)
    case Str(s) => s
    case FunctionValue(f) => "<fn " + f.declaration.name.lexeme + ">"
    case BoundMethod(f, _) => "<fn " + f.declaration.name.lexeme + ">"
    case ClassValue(c) => c.name
    case InstanceValue(i) => i.loxClass.name + " instance"
  }
}
