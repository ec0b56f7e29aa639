/** Building muxes (ServeMuxConfig in safehttp/mux.go): slices that share memory. */
module MuxConfig {

  /** An installed interceptor and the configurations it reacts to. */
  datatype Interceptor = Interceptor(id: nat, accepts: set<nat>)

  /** A Go slice that starts at the beginning of its backing array. */
  datatype Slice = Slice(arr: array<Interceptor>, len: nat) {
    predicate Valid() {
      len <= arr.Length
    }

    function List(): seq<Interceptor>
      requires Valid()
      reads arr
    {
      arr[..len]
    }
  }

  /** append: writes behind the slice when the array has room, and copies to a bigger array
      otherwise. It never changes what the slice itself shows. */
  method Append(s: Slice, xs: seq<Interceptor>) returns (r: Slice)
    requires s.Valid()
    modifies s.arr
    ensures r.Valid() && r.List() == old(s.List()) + xs
    ensures s.List() == old(s.List())
    ensures if s.len + |xs| <= s.arr.Length then r.arr == s.arr else fresh(r.arr) && s.arr[..] == old(s.arr[..])
  {
    var n := s.len + |xs|;
    if n <= s.arr.Length {
      forall i | 0 <= i < |xs| {
        s.arr[s.len + i] := xs[i];
      }
      r := Slice(s.arr, n);
    } else {
      var capacity: nat :| n <= capacity;
      var a := new Interceptor[capacity](i reads s.arr => if 0 <= i < s.len then s.arr[i] else if 0 <= i - s.len < |xs| then xs[i - s.len] else Interceptor(0, {}));
      r := Slice(a, n);
    }
  }

  class ServeMux {
    const interceptors: Slice

    constructor (interceptors: Slice)
      ensures this.interceptors == interceptors
    {
      this.interceptors := interceptors;
    }
  }

  class ServeMuxConfig {
    var interceptors: Slice

    constructor ()
      ensures fresh(interceptors.arr) && interceptors.Valid() && interceptors.List() == []
    {
      var none := new Interceptor[0];
      interceptors := Slice(none, 0);
    }

    method Intercept(xs: seq<Interceptor>)
      requires interceptors.Valid()
      modifies this, interceptors.arr
      ensures interceptors.Valid() && interceptors.List() == old(interceptors.List()) + xs
      ensures old(interceptors).List() == old(interceptors.List())
      ensures old(interceptors).len <= interceptors.len
      ensures interceptors.arr == old(interceptors.arr) || fresh(interceptors.arr)
    {
      interceptors := Append(interceptors, xs);
    }

    /** The mux shares the backing array. */
    method Mux() returns (m: ServeMux)
      ensures fresh(m) && m.interceptors == interceptors
    {
      m := new ServeMux(interceptors);
    }

    /** The clone gets an array of its own, by appending to a nil slice. */
    method Clone() returns (c: ServeMuxConfig)
      requires interceptors.Valid()
      ensures fresh(c) && fresh(c.interceptors.arr) && c.interceptors.Valid()
      ensures c.interceptors.List() == interceptors.List()
    {
      c := new ServeMuxConfig();
      c.interceptors := Append(c.interceptors, interceptors.List());
    }
  }

  // ----- The same building steps on plain lists -----

  /** A step on the config with the given number; a step on a missing one does nothing. */
  datatype BuildOp = Intercept(c: nat, xs: seq<Interceptor>) | Clone(c: nat) | Mux(c: nat)

  datatype Lists = Lists(configs: seq<seq<Interceptor>>, muxes: seq<seq<Interceptor>>)

  function Step(v: Lists, op: BuildOp): Lists {
    if op.c >= |v.configs| then v
    else match op
      case Intercept(c, xs) => v.(configs := v.configs[c := v.configs[c] + xs])
      case Clone(c) => v.(configs := v.configs + [v.configs[c]])
      case Mux(c) => v.(muxes := v.muxes + [v.configs[c]])
  }

  function Steps(ops: seq<BuildOp>): Lists {
    if ops == [] then Lists([[]], []) else Step(Steps(ops[..|ops| - 1]), ops[|ops| - 1])
  }

  /** What the objects show is what the plain lists say. */
  ghost predicate Shows(configs: seq<ServeMuxConfig>, muxes: seq<ServeMux>, v: Lists)
    reads configs, set i | 0 <= i < |configs| :: configs[i].interceptors.arr
    reads set j | 0 <= j < |muxes| :: muxes[j].interceptors.arr
  {
    && |configs| == |v.configs| && |muxes| == |v.muxes|
    && (forall i :: 0 <= i < |configs| ==> configs[i].interceptors.Valid() && configs[i].interceptors.List() == v.configs[i])
    && (forall j :: 0 <= j < |muxes| ==> muxes[j].interceptors.Valid() && muxes[j].interceptors.List() == v.muxes[j])
  }

  /** Who may write where: no array belongs to two configs, and where a mux shares the array
      of a config it shows no more of it than the config does. */
  ghost predicate Separated(configs: seq<ServeMuxConfig>, muxes: seq<ServeMux>)
    reads configs
  {
    && (forall i, j :: 0 <= i < j < |configs| ==>
          configs[i] != configs[j] && configs[i].interceptors.arr != configs[j].interceptors.arr)
    && (forall i, j :: 0 <= i < |configs| && 0 <= j < |muxes| && muxes[j].interceptors.arr == configs[i].interceptors.arr ==>
          muxes[j].interceptors.len <= configs[i].interceptors.len)
  }

  function Arrays(configs: seq<ServeMuxConfig>): set<object>
    reads configs
  {
    set i | 0 <= i < |configs| :: configs[i].interceptors.arr
  }

  /** Any sequence of building steps. Although muxes share arrays that later steps append
      to, every config and every mux shows exactly what it would with lists copied at each
      step: a mux never changes after Mux, and a clone and its original go separate ways. */
  method Build(ops: seq<BuildOp>) returns (configs: seq<ServeMuxConfig>, muxes: seq<ServeMux>)
    ensures Shows(configs, muxes, Steps(ops)) && Separated(configs, muxes)
  {
    var first := new ServeMuxConfig();
    configs, muxes := [first], [];
    for k := 0 to |ops|
      invariant Shows(configs, muxes, Steps(ops[..k])) && Separated(configs, muxes)
      invariant fresh(set c | c in configs) && fresh(Arrays(configs))
    {
      assert ops[..k + 1][..k] == ops[..k];
      configs, muxes := OneStep(configs, muxes, ops[k], Steps(ops[..k]));
    }
    assert ops[..|ops|] == ops;
  }

  method OneStep(configs: seq<ServeMuxConfig>, muxes: seq<ServeMux>, op: BuildOp, ghost v: Lists)
    returns (configs': seq<ServeMuxConfig>, muxes': seq<ServeMux>)
    requires Shows(configs, muxes, v) && Separated(configs, muxes)
    modifies configs, Arrays(configs)
    ensures Shows(configs', muxes', Step(v, op)) && Separated(configs', muxes')
    ensures forall c :: c in configs' ==> c in configs || fresh(c)
    ensures forall a :: a in Arrays(configs') ==> a in old(Arrays(configs)) || fresh(a)
  {
    configs', muxes' := configs, muxes;
    if op.c < |configs| {
      match op {
        case Intercept(c, xs) => InterceptAt(configs, muxes, c, xs, v);
        case Clone(c) => configs' := CloneAt(configs, muxes, c, v);
        case Mux(c) => muxes' := MuxAt(configs, muxes, c, v);
      }
    }
  }

  method InterceptAt(configs: seq<ServeMuxConfig>, muxes: seq<ServeMux>, c: nat, xs: seq<Interceptor>, ghost v: Lists)
    requires c < |configs| && Shows(configs, muxes, v) && Separated(configs, muxes)
    modifies configs[c], configs[c].interceptors.arr
    ensures Shows(configs, muxes, Step(v, Intercept(c, xs))) && Separated(configs, muxes)
    ensures forall a :: a in Arrays(configs) ==> a in old(Arrays(configs)) || fresh(a)
  {
    configs[c].Intercept(xs);
  }

  method CloneAt(configs: seq<ServeMuxConfig>, muxes: seq<ServeMux>, c: nat, ghost v: Lists)
    returns (more: seq<ServeMuxConfig>)
    requires c < |configs| && Shows(configs, muxes, v) && Separated(configs, muxes)
    ensures Shows(more, muxes, Step(v, Clone(c))) && Separated(more, muxes)
    ensures forall x :: x in more ==> x in configs || fresh(x)
    ensures forall a :: a in Arrays(more) ==> a in Arrays(configs) || fresh(a)
  {
    var copy := configs[c].Clone();
    more := configs + [copy];
  }

  method MuxAt(configs: seq<ServeMuxConfig>, muxes: seq<ServeMux>, c: nat, ghost v: Lists)
    returns (more: seq<ServeMux>)
    requires c < |configs| && Shows(configs, muxes, v) && Separated(configs, muxes)
    ensures Shows(configs, more, Step(v, Mux(c))) && Separated(configs, more)
  {
    var m := configs[c].Mux();
    more := muxes + [m];
  }

  /** On plain lists the isolation can be read off: a step changes no mux there is and no
      config but the one it names. */
  lemma IsolatedStep(v: Lists, op: BuildOp)
    ensures v.muxes <= Step(v, op).muxes
    ensures forall i :: 0 <= i < |v.configs| && (!op.Intercept? || i != op.c) ==>
              i < |Step(v, op).configs| && Step(v, op).configs[i] == v.configs[i]
  {
  }

  /** A mux keeps its list through all later steps. */
  lemma {:induction false} MuxNeverChanges(ops: seq<BuildOp>, k: nat)
    requires k <= |ops|
    ensures Steps(ops[..k]).muxes <= Steps(ops).muxes
    decreases |ops|
  {
    if k == |ops| {
      assert ops[..k] == ops;
    } else {
      assert ops[..|ops| - 1][..k] == ops[..k];
      MuxNeverChanges(ops[..|ops| - 1], k);
      IsolatedStep(Steps(ops[..|ops| - 1]), ops[|ops| - 1]);
    }
  }

  /** A config keeps its list through all later steps that do not intercept on it. */
  lemma {:induction false} ConfigChangesOnlyByItself(ops: seq<BuildOp>, k: nat, i: nat)
    requires k <= |ops| && i < |Steps(ops[..k]).configs|
    requires forall j :: k <= j < |ops| ==> !(ops[j].Intercept? && ops[j].c == i)
    ensures i < |Steps(ops).configs| && Steps(ops).configs[i] == Steps(ops[..k]).configs[i]
    decreases |ops|
  {
    if k == |ops| {
      assert ops[..k] == ops;
    } else {
      assert ops[..|ops| - 1][..k] == ops[..k];
      ConfigChangesOnlyByItself(ops[..|ops| - 1], k, i);
      IsolatedStep(Steps(ops[..|ops| - 1]), ops[|ops| - 1]);
    }
  }
}
