/**
 * Binding of a call's positional and keyword values to the parameters of a
 * function, as the `bind_args` routine does it.
 *
 * The reflection on a function's code object is replaced by an explicit
 * `Signature` record laid out as the interpreter lays out parameter names:
 * positional parameters, then keyword-only parameters, then the `*args`
 * name (if any), then the `**kwargs` name (if any).
 *
 * `Bind` is the specification of one call; `BindArgs` is the step-by-step
 * procedure, proved to compute `Bind`. The lemmas at the end state what a
 * call's outcome means.
 */
module ArgBinding {

  import opened Common

  /** The five rejections `bind_args` raises as a `TypeError`. */
  datatype BindError =
    | TooManyPositional
    | TooManyKeyword
    | MultipleValues
    | MissingPositional
    | MissingKeywordOnly

  /** The text each rejection carries. */
  function Message(e: BindError): string {
    match e
    case TooManyPositional => "Too many positional arguments"
    case TooManyKeyword => "Too many keyword arguments"
    case MultipleValues => "Multiple values for arguments"
    case MissingPositional => "Missing positional arguments"
    case MissingKeywordOnly => "Missing keyword-only arguments"
  }

  /** Different rejections carry different texts. */
  lemma MessagesDistinct(e1: BindError, e2: BindError)
    ensures Message(e1) == Message(e2) <==> e1 == e2
  {
  }

  /** A bound value: a single argument, the `*args` tuple or the `**kwargs` dict. */
  datatype Val<V> =
    | Single(value: V)
    | Tuple(items: seq<V>)
    | Dict(entries: map<string, V>)

  /** A call either binds names to values or is rejected. */
  datatype Outcome<V> =
    | Ok(bound: map<string, Val<V>>)
    | Err(error: BindError)

  /**
   * What `bind_args` reads from a function: its parameter names, the
   * defaults of its trailing positional parameters, the defaults of its
   * keyword-only parameters, how many keyword-only parameters it has, and
   * whether it has `*args` and `**kwargs`.
   */
  datatype Signature<V> = Signature(
    names: seq<string>,
    defaults: seq<V>,
    kwdefaults: map<string, V>,
    kwonly: nat,
    hasArgs: bool,
    hasKwargs: bool)
  {
    /** How many of the names are variadic slots. */
    function Variadics(): nat {
      (if hasArgs then 1 else 0) + (if hasKwargs then 1 else 0)
    }

    /** How many positional (positional-or-keyword) parameters there are. */
    function Positional(): int {
      |names| - kwonly - Variadics()
    }

    /** There are names for the keyword-only parameters, the variadic slots and the defaults. */
    predicate Shaped() {
      kwonly + Variadics() + |defaults| <= |names|
    }

    /** Parameter names are distinct. */
    ghost predicate DistinctNames() {
      forall i, j :: 0 <= i < j < |names| ==> names[i] != names[j]
    }

    /** Keyword-only defaults belong to keyword-only parameters. */
    ghost predicate KwDefaultsAreKeywordOnly()
      requires Shaped()
    {
      forall k :: k in kwdefaults ==> exists q :: Positional() <= q < Positional() + kwonly && names[q] == k
    }

    /** A signature as a function definition can produce it. */
    ghost predicate Valid() {
      Shaped() && DistinctNames() && KwDefaultsAreKeywordOnly()
    }

    /** Index of the `*args` name. */
    function ArgsSlot(): int {
      if hasKwargs then |names| - 2 else |names| - 1
    }

    /** Index of the `**kwargs` name. */
    function KwargsSlot(): int {
      |names| - 1
    }

    /** Index of the first parameter that has a positional default. */
    function DefaultsStart(): int {
      |names| - kwonly - |defaults| - Variadics()
    }
  }

  /** Keyword arguments in call order; their names are distinct. */
  type Keywords<V> = seq<(string, V)>

  ghost predicate DistinctKeys<V>(kwargs: Keywords<V>) {
    forall i, j :: 0 <= i < j < |kwargs| ==> kwargs[i].0 != kwargs[j].0
  }

  /** The names used as keywords. */
  function KeyNames<V>(kwargs: Keywords<V>): set<string> {
    set j | 0 <= j < |kwargs| :: kwargs[j].0
  }

  function NameSet(names: seq<string>): set<string> {
    set n | n in names
  }

  // ---------------------------------------------------------------------
  // The specification of one call
  // ---------------------------------------------------------------------

  /**
   * The early rejection that happens before anything is bound, if any. The
   * first count test is subsumed by the second, so too many positional
   * values are reported exactly when the second one fails.
   */
  function EarlyCheck<V>(sig: Signature<V>, args: seq<V>, kwargs: Keywords<V>): (r: Option<BindError>)
    ensures r == Some(TooManyPositional) <==> !sig.hasArgs && sig.kwonly + |args| > |sig.names|
    ensures r == Some(MissingKeywordOnly) <==>
      (sig.hasArgs || sig.kwonly + |args| <= |sig.names|) && sig.kwonly > |kwargs| + |sig.kwdefaults|
    ensures r == None || r == Some(TooManyPositional) || r == Some(MissingKeywordOnly)
  {
    if !sig.hasArgs && |args| > |sig.names| then Some(TooManyPositional)
    else if !sig.hasArgs && sig.kwonly + |args| > |sig.names| then Some(TooManyPositional)
    else if sig.kwonly > |kwargs| + |sig.kwdefaults| then Some(MissingKeywordOnly)
    else None
  }

  /**
   * Whether the `i`-th positional value goes to the `*args` tuple instead of
   * being bound to `names[i]`. With `**kwargs` the slot test compares `i`
   * with `|names| - 2`; without it, with `-1`, which every index passes.
   */
  predicate ToTuple<V>(sig: Signature<V>, keys: set<string>, i: nat)
    ensures ToTuple(sig, keys, i) ==> sig.hasArgs
    ensures sig.hasArgs && !ToTuple(sig, keys, i) ==> sig.hasKwargs && i < sig.ArgsSlot()
  {
    && sig.hasArgs
    && (|| i >= (if sig.hasKwargs then |sig.names| - 2 else -1)
        || sig.names[i] in keys
        || sig.names[i] in sig.kwdefaults)
  }

  /** Every positional value that is not routed to the tuple has a name to go to. */
  ghost predicate PositionalFits<V>(sig: Signature<V>, args: seq<V>) {
    sig.hasArgs || |args| <= |sig.names|
  }

  /** The names bound by the first `n` positional values. */
  function PositionalBound<V>(sig: Signature<V>, args: seq<V>, keys: set<string>, n: nat): map<string, Val<V>>
    requires PositionalFits(sig, args) && n <= |args|
  {
    if n == 0 then map[]
    else if ToTuple(sig, keys, n - 1) then PositionalBound(sig, args, keys, n - 1)
    else PositionalBound(sig, args, keys, n - 1)[sig.names[n - 1] := Single(args[n - 1])]
  }

  /** The positional values among the first `n` that are routed to `*args`, in call order. */
  function Routed<V>(sig: Signature<V>, args: seq<V>, keys: set<string>, n: nat): seq<V>
    requires n <= |args|
  {
    if n == 0 then []
    else Routed(sig, args, keys, n - 1) + (if ToTuple(sig, keys, n - 1) then [args[n - 1]] else [])
  }

  /** The rejection a keyword named `key` causes, given the names bound positionally. */
  function Offence<V>(sig: Signature<V>, bound: set<string>, key: string): Option<BindError> {
    if key in bound then Some(MultipleValues)
    else if key !in sig.names && !sig.hasKwargs then Some(TooManyKeyword)
    else None
  }

  /** The rejection caused by the first offending keyword among the first `n`, if any. */
  function FirstOffence<V>(sig: Signature<V>, bound: set<string>, kwargs: Keywords<V>, n: nat): (r: Option<BindError>)
    requires n <= |kwargs|
    ensures r == None || r == Some(MultipleValues) || r == Some(TooManyKeyword)
  {
    if n == 0 then None
    else if FirstOffence(sig, bound, kwargs, n - 1).Some? then FirstOffence(sig, bound, kwargs, n - 1)
    else Offence(sig, bound, kwargs[n - 1].0)
  }

  /** The parameters named by the first `n` keywords. */
  function NamedKeywords<V>(sig: Signature<V>, kwargs: Keywords<V>, n: nat): map<string, Val<V>>
    requires n <= |kwargs|
  {
    if n == 0 then map[]
    else if kwargs[n - 1].0 in sig.names then NamedKeywords(sig, kwargs, n - 1)[kwargs[n - 1].0 := Single(kwargs[n - 1].1)]
    else NamedKeywords(sig, kwargs, n - 1)
  }

  /** The first `n` keywords that name no parameter, for the `**kwargs` dict. */
  function ExtraKeywords<V>(sig: Signature<V>, kwargs: Keywords<V>, n: nat): map<string, V>
    requires n <= |kwargs|
  {
    if n == 0 then map[]
    else if kwargs[n - 1].0 !in sig.names then ExtraKeywords(sig, kwargs, n - 1)[kwargs[n - 1].0 := kwargs[n - 1].1]
    else ExtraKeywords(sig, kwargs, n - 1)
  }

  /** Keyword-only defaults, among `keys`, for names `res` leaves unbound. */
  function KwDefaultsFill<V>(sig: Signature<V>, res: map<string, Val<V>>, keys: set<string>): map<string, Val<V>>
    requires keys <= sig.kwdefaults.Keys
  {
    map k | k in keys && k !in res :: Single(sig.kwdefaults[k])
  }

  /** The first `n` positional defaults, for names `res` leaves unbound. */
  function PosDefaultsFill<V>(sig: Signature<V>, res: map<string, Val<V>>, n: nat): map<string, Val<V>>
    requires sig.Shaped() && n <= |sig.defaults|
  {
    if n == 0 then map[]
    else
      var name := sig.names[sig.DefaultsStart() + n - 1];
      if name !in res then PosDefaultsFill(sig, res, n - 1)[name := Single(sig.defaults[n - 1])]
      else PosDefaultsFill(sig, res, n - 1)
  }

  /** `res` with the variadic slots set to the collected tuple and dict. */
  function WithVariadics<V>(sig: Signature<V>, res: map<string, Val<V>>, tuple: seq<V>, extra: map<string, V>): (r: map<string, Val<V>>)
    requires sig.Shaped()
    ensures forall k :: k in r ==> k in res || k in VariadicNames(sig)
    ensures forall k :: k in res && k !in VariadicNames(sig) ==> k in r && r[k] == res[k]
    ensures sig.hasKwargs ==> sig.names[sig.KwargsSlot()] in r && r[sig.names[sig.KwargsSlot()]] == Dict(extra)
    ensures sig.hasArgs && (sig.hasKwargs ==> sig.names[sig.ArgsSlot()] != sig.names[sig.KwargsSlot()]) ==>
      sig.names[sig.ArgsSlot()] in r && r[sig.names[sig.ArgsSlot()]] == Tuple(tuple)
  {
    if sig.hasKwargs then
      (if sig.hasArgs then res[sig.names[sig.ArgsSlot()] := Tuple(tuple)] else res)
        [sig.names[sig.KwargsSlot()] := Dict(extra)]
    else if sig.hasArgs then res[sig.names[sig.ArgsSlot()] := Tuple(tuple)]
    else res
  }

  /** The names of the variadic slots the signature has. */
  function VariadicNames<V>(sig: Signature<V>): set<string>
    requires sig.Shaped()
  {
    (if sig.hasArgs then {sig.names[sig.ArgsSlot()]} else {}) +
    (if sig.hasKwargs then {sig.names[sig.KwargsSlot()]} else {})
  }

  /** The names bound once positional values and keywords have been distributed. */
  function Distributed<V>(sig: Signature<V>, args: seq<V>, kwargs: Keywords<V>): map<string, Val<V>>
    requires sig.Shaped() && PositionalFits(sig, args)
  {
    PositionalBound(sig, args, KeyNames(kwargs), |args|) + NamedKeywords(sig, kwargs, |kwargs|)
  }

  /** The names bound once defaults have been filled in as well. */
  function Defaulted<V>(sig: Signature<V>, args: seq<V>, kwargs: Keywords<V>): map<string, Val<V>>
    requires sig.Shaped() && PositionalFits(sig, args)
  {
    var res1 := Distributed(sig, args, kwargs);
    var res2 := res1 + KwDefaultsFill(sig, res1, sig.kwdefaults.Keys);
    res2 + PosDefaultsFill(sig, res2, |sig.defaults|)
  }

  /** The complete mapping before the final completeness test. */
  function Completed<V>(sig: Signature<V>, args: seq<V>, kwargs: Keywords<V>): map<string, Val<V>>
    requires sig.Shaped() && PositionalFits(sig, args)
  {
    WithVariadics(sig, Defaulted(sig, args, kwargs),
                  Routed(sig, args, KeyNames(kwargs), |args|),
                  ExtraKeywords(sig, kwargs, |kwargs|))
  }

  /** The rejection the keyword loop raises, if any. */
  function KeywordOffence<V>(sig: Signature<V>, args: seq<V>, kwargs: Keywords<V>): (r: Option<BindError>)
    requires PositionalFits(sig, args)
  {
    FirstOffence(sig, PositionalBound(sig, args, KeyNames(kwargs), |args|).Keys, kwargs, |kwargs|)
  }

  /**
   * The outcome of binding `args` and `kwargs` to `sig`: a rejection, or a
   * binding of exactly the parameter names.
   */
  function Bind<V>(sig: Signature<V>, args: seq<V>, kwargs: Keywords<V>): (r: Outcome<V>)
    requires sig.Valid() && DistinctKeys(kwargs)
    ensures r.Ok? ==> r.bound.Keys == NameSet(sig.names)
  {
    if EarlyCheck(sig, args, kwargs).Some? then Err(EarlyCheck(sig, args, kwargs).value)
    else
      var offence := KeywordOffence(sig, args, kwargs);
      if offence.Some? then Err(offence.value)
      else
        var res := Completed(sig, args, kwargs);
        CompletedKeysAreNames(sig, args, kwargs);
        NameSetSize(sig.names);
        SubsetSize(res.Keys, NameSet(sig.names));
        if |res| < |sig.names| then Err(MissingPositional) else Ok(res)
  }

  // ---------------------------------------------------------------------
  // What the pieces of the specification contain
  // ---------------------------------------------------------------------

  lemma UnionUpdate<K, W>(a: map<K, W>, b: map<K, W>, k: K, v: W)
    ensures a + b[k := v] == (a + b)[k := v]
  {
  }

  /** Once a keyword has offended, later keywords do not change the rejection. */
  lemma {:induction false} FirstOffenceSticks<V>(sig: Signature<V>, bound: set<string>, kwargs: Keywords<V>, m: nat, n: nat)
    requires m <= n <= |kwargs| && FirstOffence(sig, bound, kwargs, m).Some?
    ensures FirstOffence(sig, bound, kwargs, n) == FirstOffence(sig, bound, kwargs, m)
    decreases n
  {
    if n > m {
      FirstOffenceSticks(sig, bound, kwargs, m, n - 1);
    }
  }

  /** The keywords bound to parameters are exactly the first `n` keywords that name one. */
  lemma {:induction false} NamedKeywordsKeys<V>(sig: Signature<V>, kwargs: Keywords<V>, n: nat)
    requires n <= |kwargs|
    ensures forall k :: k in NamedKeywords(sig, kwargs, n) <==>
      k in sig.names && exists j :: 0 <= j < n && kwargs[j].0 == k
  {
    if n > 0 {
      NamedKeywordsKeys(sig, kwargs, n - 1);
    }
  }

  /** The keywords collected for `**kwargs` are exactly the first `n` keywords that name no parameter. */
  lemma {:induction false} ExtraKeywordsKeys<V>(sig: Signature<V>, kwargs: Keywords<V>, n: nat)
    requires n <= |kwargs|
    ensures forall k :: k in ExtraKeywords(sig, kwargs, n) <==>
      k !in sig.names && exists j :: 0 <= j < n && kwargs[j].0 == k
  {
    if n > 0 {
      ExtraKeywordsKeys(sig, kwargs, n - 1);
    }
  }

  /** The positional defaults fill only names among the first `n` that have a default. */
  lemma {:induction false} PosDefaultsFillKeys<V>(sig: Signature<V>, res: map<string, Val<V>>, n: nat)
    requires sig.Shaped() && n <= |sig.defaults|
    ensures forall k :: k in PosDefaultsFill(sig, res, n) <==>
      k !in res && exists q :: sig.DefaultsStart() <= q < sig.DefaultsStart() + n && sig.names[q] == k
  {
    if n > 0 {
      PosDefaultsFillKeys(sig, res, n - 1);
    }
  }

  /** A positional default fills its parameter when `res` leaves it unbound. */
  lemma {:induction false} PosDefaultsFillAt<V>(sig: Signature<V>, res: map<string, Val<V>>, n: nat, d: nat)
    requires sig.Shaped() && sig.DistinctNames() && d < n <= |sig.defaults|
    requires sig.names[sig.DefaultsStart() + d] !in res
    ensures sig.names[sig.DefaultsStart() + d] in PosDefaultsFill(sig, res, n)
    ensures PosDefaultsFill(sig, res, n)[sig.names[sig.DefaultsStart() + d]] == Single(sig.defaults[d])
  {
    if n - 1 > d {
      PosDefaultsFillAt(sig, res, n - 1, d);
    }
  }

  /** One step of the positional default loop. */
  lemma PosDefaultsStep<V>(sig: Signature<V>, res0: map<string, Val<V>>, n: nat)
    requires sig.Shaped() && sig.DistinctNames() && n < |sig.defaults|
    ensures var name := sig.names[sig.DefaultsStart() + n];
      var res := res0 + PosDefaultsFill(sig, res0, n);
      res0 + PosDefaultsFill(sig, res0, n + 1) ==
        if name in res then res else res[name := Single(sig.defaults[n])]
  {
    var name := sig.names[sig.DefaultsStart() + n];
    var filled := PosDefaultsFill(sig, res0, n);
    PosDefaultsFillKeys(sig, res0, n);
    assert name in res0 + filled <==> name in res0;
    if name !in res0 {
      UnionUpdate(res0, filled, name, Single(sig.defaults[n]));
    }
  }

  /** One step of the keyword loop. */
  lemma KeywordStep<V>(sig: Signature<V>, res0: map<string, Val<V>>, kwargs: Keywords<V>, j: nat)
    requires DistinctKeys(kwargs) && j < |kwargs| && FirstOffence(sig, res0.Keys, kwargs, j) == None
    ensures var key := kwargs[j].0;
      var res := res0 + NamedKeywords(sig, kwargs, j);
      && (key in res <==> key in res0)
      && FirstOffence(sig, res0.Keys, kwargs, j + 1) == Offence(sig, res0.Keys, key)
      && res0 + NamedKeywords(sig, kwargs, j + 1) ==
           (if key in sig.names then res[key := Single(kwargs[j].1)] else res)
      && ExtraKeywords(sig, kwargs, j + 1) ==
           (if key in sig.names then ExtraKeywords(sig, kwargs, j) else ExtraKeywords(sig, kwargs, j)[key := kwargs[j].1])
  {
    NamedKeywordsKeys(sig, kwargs, j);
    var key := kwargs[j].0;
    if key in sig.names {
      UnionUpdate(res0, NamedKeywords(sig, kwargs, j), key, Single(kwargs[j].1));
    }
  }

  /** A name bound positionally is the name of an unrouted positional index, and its value is that argument. */
  lemma {:induction false} PositionalBoundAt<V>(sig: Signature<V>, args: seq<V>, keys: set<string>, n: nat, p: nat)
    requires PositionalFits(sig, args) && sig.DistinctNames() && n <= |args| && p < |sig.names|
    ensures sig.names[p] in PositionalBound(sig, args, keys, n) <==> p < n && !ToTuple(sig, keys, p)
    ensures p < n && !ToTuple(sig, keys, p) ==> PositionalBound(sig, args, keys, n)[sig.names[p]] == Single(args[p])
  {
    if n > 0 {
      PositionalBoundAt(sig, args, keys, n - 1, p);
    }
  }

  /** Every name bound positionally is a parameter name at an unrouted index. */
  lemma {:induction false} PositionalBoundKeys<V>(sig: Signature<V>, args: seq<V>, keys: set<string>, n: nat)
    requires PositionalFits(sig, args) && n <= |args|
    ensures forall k :: k in PositionalBound(sig, args, keys, n) ==>
      exists p :: 0 <= p < n && p < |sig.names| && !ToTuple(sig, keys, p) && sig.names[p] == k
  {
    if n > 0 {
      PositionalBoundKeys(sig, args, keys, n - 1);
    }
  }

  /** Without `**kwargs`, every positional value goes to the `*args` tuple. */
  lemma {:induction false} RoutedAll<V>(sig: Signature<V>, args: seq<V>, keys: set<string>, n: nat)
    requires n <= |args| && sig.hasArgs && !sig.hasKwargs
    ensures Routed(sig, args, keys, n) == args[..n]
  {
    if n > 0 {
      RoutedAll(sig, args, keys, n - 1);
      assert args[..n] == args[..n - 1] + [args[n - 1]];
    }
  }

  /** A keyword that names a parameter is bound to its value. */
  lemma {:induction false} NamedKeywordsAt<V>(sig: Signature<V>, kwargs: Keywords<V>, n: nat, j: nat)
    requires DistinctKeys(kwargs) && j < n <= |kwargs| && kwargs[j].0 in sig.names
    ensures kwargs[j].0 in NamedKeywords(sig, kwargs, n)
    ensures NamedKeywords(sig, kwargs, n)[kwargs[j].0] == Single(kwargs[j].1)
  {
    if n - 1 > j {
      NamedKeywordsAt(sig, kwargs, n - 1, j);
    }
  }

  /** A keyword that names no parameter is collected with its value. */
  lemma {:induction false} ExtraKeywordsAt<V>(sig: Signature<V>, kwargs: Keywords<V>, n: nat, j: nat)
    requires DistinctKeys(kwargs) && j < n <= |kwargs| && kwargs[j].0 !in sig.names
    ensures kwargs[j].0 in ExtraKeywords(sig, kwargs, n)
    ensures ExtraKeywords(sig, kwargs, n)[kwargs[j].0] == kwargs[j].1
  {
    if n - 1 > j {
      ExtraKeywordsAt(sig, kwargs, n - 1, j);
    }
  }

  /** No rejection from the keyword loop means no keyword offends. */
  lemma {:induction false} FirstOffenceNone<V>(sig: Signature<V>, bound: set<string>, kwargs: Keywords<V>, n: nat)
    requires n <= |kwargs|
    ensures FirstOffence(sig, bound, kwargs, n) == None <==>
      forall j :: 0 <= j < n ==> Offence(sig, bound, kwargs[j].0) == None
  {
    if n > 0 {
      FirstOffenceNone(sig, bound, kwargs, n - 1);
    }
  }

  /** The rejection from the keyword loop is that of the first offending keyword. */
  lemma {:induction false} FirstOffenceAt<V>(sig: Signature<V>, bound: set<string>, kwargs: Keywords<V>, n: nat, j: nat)
    requires j < n <= |kwargs| && Offence(sig, bound, kwargs[j].0).Some?
    requires forall i :: 0 <= i < j ==> Offence(sig, bound, kwargs[i].0) == None
    ensures FirstOffence(sig, bound, kwargs, n) == Offence(sig, bound, kwargs[j].0)
  {
    FirstOffenceNone(sig, bound, kwargs, j);
    FirstOffenceSticks(sig, bound, kwargs, j + 1, n);
  }

  /** A rejection from the keyword loop is caused by some keyword, the first one that offends. */
  lemma {:induction false} FirstOffenceWitness<V>(sig: Signature<V>, bound: set<string>, kwargs: Keywords<V>, n: nat)
    requires n <= |kwargs| && FirstOffence(sig, bound, kwargs, n).Some?
    ensures exists j :: (0 <= j < n && Offence(sig, bound, kwargs[j].0) == FirstOffence(sig, bound, kwargs, n)
      && forall i :: 0 <= i < j ==> Offence(sig, bound, kwargs[i].0) == None)
  {
    if FirstOffence(sig, bound, kwargs, n - 1).Some? {
      FirstOffenceWitness(sig, bound, kwargs, n - 1);
    } else {
      FirstOffenceNone(sig, bound, kwargs, n - 1);
    }
  }

  /** A call that passes the early checks and the keyword loop ends with the completeness test. */
  lemma BindAccepted<V>(sig: Signature<V>, args: seq<V>, kwargs: Keywords<V>)
    requires sig.Valid() && DistinctKeys(kwargs)
    requires EarlyCheck(sig, args, kwargs) == None && KeywordOffence(sig, args, kwargs) == None
    ensures Bind(sig, args, kwargs) ==
      if |Completed(sig, args, kwargs)| < |sig.names| then Err(MissingPositional)
      else Ok(Completed(sig, args, kwargs))
  {
  }

  // ---------------------------------------------------------------------
  // The procedure
  // ---------------------------------------------------------------------

  /** The positional loop: each value is routed to `*args` or bound to its name. */
  method DistributePositional<V>(sig: Signature<V>, args: seq<V>, keys: set<string>)
    returns (res: map<string, Val<V>>, argsTuple: seq<V>)
    requires PositionalFits(sig, args)
    ensures res == PositionalBound(sig, args, keys, |args|)
    ensures argsTuple == Routed(sig, args, keys, |args|)
  {
    res, argsTuple := map[], [];
    var i := 0;
    while i < |args|
      invariant 0 <= i <= |args|
      invariant res == PositionalBound(sig, args, keys, i)
      invariant argsTuple == Routed(sig, args, keys, i)
    {
      if ToTuple(sig, keys, i) {
        argsTuple := argsTuple + [args[i]];
      } else {
        res := res[sig.names[i] := Single(args[i])];
      }
      i := i + 1;
    }
  }

  /**
   * The keyword loop: a keyword already bound is rejected, a parameter name
   * is bound, any other name goes to the `**kwargs` dict or is rejected.
   */
  method DistributeKeywords<V>(sig: Signature<V>, res0: map<string, Val<V>>, kwargs: Keywords<V>)
    returns (offence: Option<BindError>, res: map<string, Val<V>>, kwargsDict: map<string, V>)
    requires DistinctKeys(kwargs)
    ensures offence == FirstOffence(sig, res0.Keys, kwargs, |kwargs|)
    ensures offence == None ==> res == res0 + NamedKeywords(sig, kwargs, |kwargs|)
    ensures offence == None ==> kwargsDict == ExtraKeywords(sig, kwargs, |kwargs|)
  {
    res, kwargsDict := res0, map[];
    var j := 0;
    while j < |kwargs|
      invariant 0 <= j <= |kwargs|
      invariant FirstOffence(sig, res0.Keys, kwargs, j) == None
      invariant res == res0 + NamedKeywords(sig, kwargs, j)
      invariant kwargsDict == ExtraKeywords(sig, kwargs, j)
    {
      var (key, value) := kwargs[j];
      KeywordStep(sig, res0, kwargs, j);
      if key in res {
        FirstOffenceSticks(sig, res0.Keys, kwargs, j + 1, |kwargs|);
        return Some(MultipleValues), res, kwargsDict;
      }
      if key in sig.names {
        res := res[key := Single(value)];
      } else if sig.hasKwargs {
        kwargsDict := kwargsDict[key := value];
      } else {
        FirstOffenceSticks(sig, res0.Keys, kwargs, j + 1, |kwargs|);
        return Some(TooManyKeyword), res, kwargsDict;
      }
      j := j + 1;
    }
    offence := None;
  }

  /** The keyword-only default loop: each default fills its name if unbound. */
  method FillKwDefaults<V>(sig: Signature<V>, res0: map<string, Val<V>>) returns (res: map<string, Val<V>>)
    ensures res == res0 + KwDefaultsFill(sig, res0, sig.kwdefaults.Keys)
  {
    res := res0;
    var pending := sig.kwdefaults.Keys;
    while pending != {}
      invariant pending <= sig.kwdefaults.Keys
      invariant res == res0 + KwDefaultsFill(sig, res0, sig.kwdefaults.Keys - pending)
      decreases pending
    {
      var key :| key in pending;
      if key !in res {
        res := res[key := Single(sig.kwdefaults[key])];
      }
      pending := pending - {key};
    }
  }

  /** The positional default loop over the trailing positional parameters. */
  method FillPosDefaults<V>(sig: Signature<V>, res0: map<string, Val<V>>) returns (res: map<string, Val<V>>)
    requires sig.Shaped() && sig.DistinctNames()
    ensures res == res0 + PosDefaultsFill(sig, res0, |sig.defaults|)
  {
    res := res0;
    var start := sig.DefaultsStart();
    var p := start;
    while p < start + |sig.defaults|
      invariant start <= p <= start + |sig.defaults|
      invariant res == res0 + PosDefaultsFill(sig, res0, p - start)
    {
      PosDefaultsStep(sig, res0, p - start);
      if sig.names[p] !in res {
        res := res[sig.names[p] := Single(sig.defaults[p - start])];
      }
      p := p + 1;
    }
  }

  /**
   * Binds `args` and `kwargs` to `sig` as `bind_args` does: the early
   * rejections, the positional and keyword loops, the two default loops,
   * the variadic slots and the final count of bound names.
   */
  method BindArgs<V>(sig: Signature<V>, args: seq<V>, kwargs: Keywords<V>) returns (r: Outcome<V>)
    requires sig.Valid() && DistinctKeys(kwargs)
    ensures r == Bind(sig, args, kwargs)
  {
    var names := sig.names;
    var numArgs := |names|;
    if !sig.hasArgs && |args| > numArgs {
      return Err(TooManyPositional);
    }
    if !sig.hasArgs && sig.kwonly + |args| > numArgs {
      return Err(TooManyPositional);
    }
    if sig.kwonly > |kwargs| + |sig.kwdefaults| {
      return Err(MissingKeywordOnly);
    }
    assert EarlyCheck(sig, args, kwargs) == None;
    var res, argsTuple := DistributePositional(sig, args, KeyNames(kwargs));
    var offence, kwargsDict;
    offence, res, kwargsDict := DistributeKeywords(sig, res, kwargs);
    assert offence == KeywordOffence(sig, args, kwargs);
    if offence.Some? {
      return Err(offence.value);
    }
    assert res == Distributed(sig, args, kwargs);
    res := FillKwDefaults(sig, res);
    res := FillPosDefaults(sig, res);
    assert res == Defaulted(sig, args, kwargs);
    res := WithVariadics(sig, res, argsTuple, kwargsDict);
    assert res == Completed(sig, args, kwargs);
    BindAccepted(sig, args, kwargs);
    if |res| < numArgs {
      return Err(MissingPositional);
    }
    return Ok(res);
  }

  // ---------------------------------------------------------------------
  // What a call's outcome means
  // ---------------------------------------------------------------------

  /** The names the positional loop binds. */
  function PositionallyBound<V>(sig: Signature<V>, args: seq<V>, kwargs: Keywords<V>): set<string>
    requires PositionalFits(sig, args)
  {
    PositionalBound(sig, args, KeyNames(kwargs), |args|).Keys
  }

  /** Too many positional values are rejected exactly when there is no `*args` and they
      and the keyword-only parameters outnumber the names. */
  lemma TooManyPositionalIff<V>(sig: Signature<V>, args: seq<V>, kwargs: Keywords<V>)
    requires sig.Valid() && DistinctKeys(kwargs)
    ensures Bind(sig, args, kwargs) == Err(TooManyPositional) <==>
      !sig.hasArgs && sig.kwonly + |args| > |sig.names|
  {
  }

  /** Missing keyword-only arguments are reported exactly when the early count check fails:
      more keyword-only parameters than keywords and keyword-only defaults together. */
  lemma MissingKeywordOnlyIff<V>(sig: Signature<V>, args: seq<V>, kwargs: Keywords<V>)
    requires sig.Valid() && DistinctKeys(kwargs)
    ensures Bind(sig, args, kwargs) == Err(MissingKeywordOnly) <==>
      && (sig.hasArgs || sig.kwonly + |args| <= |sig.names|)
      && sig.kwonly > |kwargs| + |sig.kwdefaults|
  {
  }

  /** Without `*args`, a keyword repeating a positionally bound name is rejected; with
      `**kwargs` the rejection is always for multiple values. */
  lemma RepeatedKeywordRejected<V>(sig: Signature<V>, args: seq<V>, kwargs: Keywords<V>, i: nat, j: nat)
    requires sig.Valid() && DistinctKeys(kwargs) && EarlyCheck(sig, args, kwargs) == None
    requires !sig.hasArgs && i < |args| && j < |kwargs| && kwargs[j].0 == sig.names[i]
    ensures Bind(sig, args, kwargs).Err?
    ensures Bind(sig, args, kwargs).error == MultipleValues || Bind(sig, args, kwargs).error == TooManyKeyword
    ensures sig.hasKwargs ==> Bind(sig, args, kwargs) == Err(MultipleValues)
  {
    var keys := KeyNames(kwargs);
    var bound := PositionallyBound(sig, args, kwargs);
    PositionalBoundAt(sig, args, keys, |args|, i);
    assert Offence(sig, bound, kwargs[j].0) == Some(MultipleValues);
    FirstOffenceNone(sig, bound, kwargs, |kwargs|);
    if sig.hasKwargs {
      FirstOffenceWitness(sig, bound, kwargs, |kwargs|);
    }
  }

  /** With `*args`, a positional value whose name is also given as a keyword goes to the
      tuple, so a call is never rejected for multiple values. */
  lemma NoMultipleValuesWithVarArgs<V>(sig: Signature<V>, args: seq<V>, kwargs: Keywords<V>)
    requires sig.Valid() && DistinctKeys(kwargs) && sig.hasArgs
    ensures Bind(sig, args, kwargs) != Err(MultipleValues)
  {
    if EarlyCheck(sig, args, kwargs) == None && KeywordOffence(sig, args, kwargs) == Some(MultipleValues) {
      var keys := KeyNames(kwargs);
      var bound := PositionallyBound(sig, args, kwargs);
      FirstOffenceWitness(sig, bound, kwargs, |kwargs|);
      var j :| 0 <= j < |kwargs| && Offence(sig, bound, kwargs[j].0) == Some(MultipleValues);
      PositionalBoundKeys(sig, args, keys, |args|);
      assert false;
    }
  }

  /** Without `**kwargs`, a keyword that names no parameter is rejected (by it or an earlier keyword). */
  lemma UnknownKeywordRejected<V>(sig: Signature<V>, args: seq<V>, kwargs: Keywords<V>, j: nat)
    requires sig.Valid() && DistinctKeys(kwargs) && EarlyCheck(sig, args, kwargs) == None
    requires !sig.hasKwargs && j < |kwargs| && kwargs[j].0 !in sig.names
    ensures Bind(sig, args, kwargs).Err?
    ensures Bind(sig, args, kwargs).error == TooManyKeyword || Bind(sig, args, kwargs).error == MultipleValues
  {
    FirstOffenceNone(sig, PositionallyBound(sig, args, kwargs), kwargs, |kwargs|);
  }

  /**
   * A call is rejected for multiple values, or for too many keywords, exactly
   * when it passes the early checks and the first offending keyword, in call
   * order, causes that rejection.
   */
  lemma KeywordRejectionIff<V>(sig: Signature<V>, args: seq<V>, kwargs: Keywords<V>, e: BindError)
    requires sig.Valid() && DistinctKeys(kwargs)
    requires e == MultipleValues || e == TooManyKeyword
    ensures Bind(sig, args, kwargs) == Err(e) <==>
      && EarlyCheck(sig, args, kwargs) == None
      && exists j :: (0 <= j < |kwargs| && Offence(sig, PositionallyBound(sig, args, kwargs), kwargs[j].0) == Some(e)
           && forall i :: 0 <= i < j ==> Offence(sig, PositionallyBound(sig, args, kwargs), kwargs[i].0) == None)
  {
    if EarlyCheck(sig, args, kwargs) == None {
      var bound := PositionallyBound(sig, args, kwargs);
      if Bind(sig, args, kwargs) == Err(e) {
        FirstOffenceWitness(sig, bound, kwargs, |kwargs|);
      }
      if exists j :: (0 <= j < |kwargs| && Offence(sig, bound, kwargs[j].0) == Some(e)
           && forall i :: 0 <= i < j ==> Offence(sig, bound, kwargs[i].0) == None)
      {
        var j :| 0 <= j < |kwargs| && Offence(sig, bound, kwargs[j].0) == Some(e)
           && forall i :: 0 <= i < j ==> Offence(sig, bound, kwargs[i].0) == None;
        FirstOffenceAt(sig, bound, kwargs, |kwargs|, j);
      }
    }
  }

  /** Whether the parameter at index `p` receives a positional value, a keyword or a default. */
  ghost predicate Filled<V>(sig: Signature<V>, args: seq<V>, kwargs: Keywords<V>, p: nat)
    requires p < |sig.names|
  {
    || (p < |args| && !ToTuple(sig, KeyNames(kwargs), p))
    || sig.names[p] in KeyNames(kwargs)
    || sig.names[p] in sig.kwdefaults
    || sig.DefaultsStart() <= p < sig.DefaultsStart() + |sig.defaults|
  }

  /** The variadic slots do not disturb the other parameters. */
  lemma CompletedFixed<V>(sig: Signature<V>, args: seq<V>, kwargs: Keywords<V>, p: nat)
    requires sig.Valid() && PositionalFits(sig, args)
    requires p < |sig.names| - sig.Variadics()
    ensures sig.names[p] in Completed(sig, args, kwargs) <==> sig.names[p] in Defaulted(sig, args, kwargs)
    ensures sig.names[p] in Defaulted(sig, args, kwargs) ==>
      Completed(sig, args, kwargs)[sig.names[p]] == Defaulted(sig, args, kwargs)[sig.names[p]]
  {
    assert sig.hasArgs ==> sig.names[p] != sig.names[sig.ArgsSlot()];
    assert sig.hasKwargs ==> sig.names[p] != sig.names[sig.KwargsSlot()];
  }

  /** A parameter that is not a variadic slot is bound exactly when it is filled. */
  lemma DefaultedHas<V>(sig: Signature<V>, args: seq<V>, kwargs: Keywords<V>, p: nat)
    requires sig.Valid() && PositionalFits(sig, args)
    requires p < |sig.names| - sig.Variadics()
    ensures sig.names[p] in Defaulted(sig, args, kwargs) <==> Filled(sig, args, kwargs, p)
  {
    var keys := KeyNames(kwargs);
    var res1 := Distributed(sig, args, kwargs);
    var res2 := res1 + KwDefaultsFill(sig, res1, sig.kwdefaults.Keys);
    PositionalBoundAt(sig, args, keys, |args|, p);
    NamedKeywordsKeys(sig, kwargs, |kwargs|);
    PosDefaultsFillKeys(sig, res2, |sig.defaults|);
    assert sig.names[p] in NamedKeywords(sig, kwargs, |kwargs|) <==> sig.names[p] in keys;
  }

  /** A keyword takes precedence over everything else. */
  lemma DefaultedKeyword<V>(sig: Signature<V>, args: seq<V>, kwargs: Keywords<V>, p: nat, j: nat)
    requires sig.Valid() && DistinctKeys(kwargs) && PositionalFits(sig, args)
    requires p < |sig.names| && j < |kwargs| && kwargs[j].0 == sig.names[p]
    ensures sig.names[p] in Defaulted(sig, args, kwargs)
    ensures Defaulted(sig, args, kwargs)[sig.names[p]] == Single(kwargs[j].1)
  {
    NamedKeywordsAt(sig, kwargs, |kwargs|, j);
    var res1 := Distributed(sig, args, kwargs);
    var res2 := res1 + KwDefaultsFill(sig, res1, sig.kwdefaults.Keys);
    PosDefaultsFillKeys(sig, res2, |sig.defaults|);
    assert res2[sig.names[p]] == Single(kwargs[j].1);
  }

  /** Without a keyword, a positional value takes precedence over the defaults. */
  lemma DefaultedPositional<V>(sig: Signature<V>, args: seq<V>, kwargs: Keywords<V>, p: nat)
    requires sig.Valid() && PositionalFits(sig, args)
    requires p < |sig.names| && p < |args| && !ToTuple(sig, KeyNames(kwargs), p)
    requires sig.names[p] !in KeyNames(kwargs)
    ensures sig.names[p] in Defaulted(sig, args, kwargs)
    ensures Defaulted(sig, args, kwargs)[sig.names[p]] == Single(args[p])
  {
    PositionalBoundAt(sig, args, KeyNames(kwargs), |args|, p);
    NamedKeywordsKeys(sig, kwargs, |kwargs|);
    var res1 := Distributed(sig, args, kwargs);
    var res2 := res1 + KwDefaultsFill(sig, res1, sig.kwdefaults.Keys);
    PosDefaultsFillKeys(sig, res2, |sig.defaults|);
    assert res1[sig.names[p]] == Single(args[p]);
    assert res2[sig.names[p]] == Single(args[p]);
  }

  /** A parameter bound neither positionally nor by keyword takes its keyword-only default. */
  lemma DefaultedKwDefault<V>(sig: Signature<V>, args: seq<V>, kwargs: Keywords<V>, name: string)
    requires sig.Valid() && PositionalFits(sig, args)
    requires name in sig.kwdefaults && name !in KeyNames(kwargs) && name !in PositionallyBound(sig, args, kwargs)
    ensures name in Defaulted(sig, args, kwargs)
    ensures Defaulted(sig, args, kwargs)[name] == Single(sig.kwdefaults[name])
  {
    NamedKeywordsKeys(sig, kwargs, |kwargs|);
    var res1 := Distributed(sig, args, kwargs);
    var res2 := res1 + KwDefaultsFill(sig, res1, sig.kwdefaults.Keys);
    PosDefaultsFillKeys(sig, res2, |sig.defaults|);
  }

  /** A parameter bound by nothing else takes its positional default. */
  lemma DefaultedPosDefault<V>(sig: Signature<V>, args: seq<V>, kwargs: Keywords<V>, d: nat)
    requires sig.Valid() && PositionalFits(sig, args) && d < |sig.defaults|
    requires var name := sig.names[sig.DefaultsStart() + d];
      name !in KeyNames(kwargs) && name !in PositionallyBound(sig, args, kwargs)
    ensures sig.names[sig.DefaultsStart() + d] in Defaulted(sig, args, kwargs)
    ensures Defaulted(sig, args, kwargs)[sig.names[sig.DefaultsStart() + d]] == Single(sig.defaults[d])
  {
    var name := sig.names[sig.DefaultsStart() + d];
    NamedKeywordsKeys(sig, kwargs, |kwargs|);
    assert name !in sig.kwdefaults;
    var res1 := Distributed(sig, args, kwargs);
    var res2 := res1 + KwDefaultsFill(sig, res1, sig.kwdefaults.Keys);
    assert name !in res2;
    PosDefaultsFillAt(sig, res2, |sig.defaults|, d);
    PosDefaultsFillKeys(sig, res2, |sig.defaults|);
    assert name in PosDefaultsFill(sig, res2, |sig.defaults|);
  }

  /** Distinct names make a set as large as the sequence. */
  lemma {:induction false} NameSetSize(names: seq<string>)
    requires forall i, j :: 0 <= i < j < |names| ==> names[i] != names[j]
    ensures |NameSet(names)| == |names|
  {
    if names != [] {
      var init := names[..|names| - 1];
      NameSetSize(init);
      assert NameSet(names) == NameSet(init) + {names[|names| - 1]};
    }
  }

  /** Every name the binder binds is a parameter name. */
  lemma CompletedKeysAreNames<V>(sig: Signature<V>, args: seq<V>, kwargs: Keywords<V>)
    requires sig.Valid() && PositionalFits(sig, args)
    ensures Completed(sig, args, kwargs).Keys <= NameSet(sig.names)
  {
    var keys := KeyNames(kwargs);
    var res1 := Distributed(sig, args, kwargs);
    var res2 := res1 + KwDefaultsFill(sig, res1, sig.kwdefaults.Keys);
    PositionalBoundKeys(sig, args, keys, |args|);
    NamedKeywordsKeys(sig, kwargs, |kwargs|);
    PosDefaultsFillKeys(sig, res2, |sig.defaults|);
    assert res1.Keys <= NameSet(sig.names);
    assert res2.Keys <= NameSet(sig.names);
  }

  /** The variadic slots are always bound. */
  lemma CompletedHasSlots<V>(sig: Signature<V>, args: seq<V>, kwargs: Keywords<V>, p: nat)
    requires sig.Valid() && PositionalFits(sig, args)
    requires |sig.names| - sig.Variadics() <= p < |sig.names|
    ensures sig.names[p] in Completed(sig, args, kwargs)
  {
  }


  /** When every parameter is filled, every name is bound. */
  lemma CompletedCovers<V>(sig: Signature<V>, args: seq<V>, kwargs: Keywords<V>)
    requires sig.Valid() && PositionalFits(sig, args)
    requires forall p :: 0 <= p < |sig.names| - sig.Variadics() ==> Filled(sig, args, kwargs, p)
    ensures Completed(sig, args, kwargs).Keys == NameSet(sig.names)
  {
    CompletedKeysAreNames(sig, args, kwargs);
    forall n | n in NameSet(sig.names) ensures n in Completed(sig, args, kwargs) {
      var p :| 0 <= p < |sig.names| && sig.names[p] == n;
      if p < |sig.names| - sig.Variadics() {
        CompletedFixed(sig, args, kwargs, p);
        DefaultedHas(sig, args, kwargs, p);
      } else {
        CompletedHasSlots(sig, args, kwargs, p);
      }
    }
  }

  /** The complete mapping has an entry per name exactly when every parameter is filled. */
  lemma CompletedSize<V>(sig: Signature<V>, args: seq<V>, kwargs: Keywords<V>)
    requires sig.Valid() && PositionalFits(sig, args)
    ensures |Completed(sig, args, kwargs)| <= |sig.names|
    ensures |Completed(sig, args, kwargs)| < |sig.names| <==>
      exists p :: 0 <= p < |sig.names| - sig.Variadics() && !Filled(sig, args, kwargs, p)
  {
    var res := Completed(sig, args, kwargs);
    CompletedKeysAreNames(sig, args, kwargs);
    NameSetSize(sig.names);
    SubsetSize(res.Keys, NameSet(sig.names));
    if exists p :: 0 <= p < |sig.names| - sig.Variadics() && !Filled(sig, args, kwargs, p) {
      var p :| 0 <= p < |sig.names| - sig.Variadics() && !Filled(sig, args, kwargs, p);
      CompletedFixed(sig, args, kwargs, p);
      DefaultedHas(sig, args, kwargs, p);
      assert sig.names[p] in NameSet(sig.names);
    } else {
      CompletedCovers(sig, args, kwargs);
    }
  }

  /**
   * The final completeness test rejects a call exactly when some parameter
   * that is not a variadic slot received no positional value, no keyword and
   * no default. A keyword-only parameter left unfilled is reported here as a
   * missing positional argument, since the only keyword-only test is the
   * early count check.
   */
  lemma MissingPositionalIff<V>(sig: Signature<V>, args: seq<V>, kwargs: Keywords<V>)
    requires sig.Valid() && DistinctKeys(kwargs)
    ensures Bind(sig, args, kwargs) == Err(MissingPositional) <==>
      && EarlyCheck(sig, args, kwargs) == None
      && KeywordOffence(sig, args, kwargs) == None
      && exists p :: 0 <= p < |sig.names| - sig.Variadics() && !Filled(sig, args, kwargs, p)
  {
    if EarlyCheck(sig, args, kwargs) == None && KeywordOffence(sig, args, kwargs) == None {
      BindAccepted(sig, args, kwargs);
      CompletedSize(sig, args, kwargs);
    }
  }

  /** A keyword that names a parameter other than a variadic slot is bound to its value. */
  lemma BindKeywordValue<V>(sig: Signature<V>, args: seq<V>, kwargs: Keywords<V>, p: nat, j: nat)
    requires sig.Valid() && DistinctKeys(kwargs)
    requires p < |sig.names| - sig.Variadics() && j < |kwargs| && kwargs[j].0 == sig.names[p]
    ensures Bind(sig, args, kwargs).Ok? ==>
      && sig.names[p] in Bind(sig, args, kwargs).bound
      && Bind(sig, args, kwargs).bound[sig.names[p]] == Single(kwargs[j].1)
  {
    if Bind(sig, args, kwargs).Ok? {
      BindAccepted(sig, args, kwargs);
      DefaultedKeyword(sig, args, kwargs, p, j);
      CompletedFixed(sig, args, kwargs, p);
    }
  }

  /** A positional value that is not routed to `*args` is bound to the parameter at its index. */
  lemma BindPositionalValue<V>(sig: Signature<V>, args: seq<V>, kwargs: Keywords<V>, p: nat)
    requires sig.Valid() && DistinctKeys(kwargs)
    requires p < |sig.names| - sig.Variadics() && p < |args| && !ToTuple(sig, KeyNames(kwargs), p)
    ensures Bind(sig, args, kwargs).Ok? ==>
      && sig.names[p] in Bind(sig, args, kwargs).bound
      && Bind(sig, args, kwargs).bound[sig.names[p]] == Single(args[p])
  {
    if Bind(sig, args, kwargs).Ok? {
      BindAccepted(sig, args, kwargs);
      assert Bind(sig, args, kwargs).bound == Completed(sig, args, kwargs);
      assert sig.names[p] !in KeyNames(kwargs) by {
        var bound := PositionallyBound(sig, args, kwargs);
        PositionalBoundAt(sig, args, KeyNames(kwargs), |args|, p);
        FirstOffenceNone(sig, bound, kwargs, |kwargs|);
        forall j | 0 <= j < |kwargs| ensures kwargs[j].0 != sig.names[p] {
          assert Offence(sig, bound, kwargs[j].0) == None;
        }
      }
      DefaultedPositional(sig, args, kwargs, p);
      CompletedFixed(sig, args, kwargs, p);
    }
  }

  /** A keyword-only parameter given no value takes its keyword-only default. */
  lemma BindKwDefault<V>(sig: Signature<V>, args: seq<V>, kwargs: Keywords<V>, name: string)
    requires sig.Valid() && DistinctKeys(kwargs)
    requires name in sig.kwdefaults && name !in KeyNames(kwargs)
    ensures Bind(sig, args, kwargs).Ok? && name !in PositionallyBound(sig, args, kwargs) ==>
      && name in Bind(sig, args, kwargs).bound
      && Bind(sig, args, kwargs).bound[name] == Single(sig.kwdefaults[name])
  {
    if Bind(sig, args, kwargs).Ok? && name !in PositionallyBound(sig, args, kwargs) {
      BindAccepted(sig, args, kwargs);
      DefaultedKwDefault(sig, args, kwargs, name);
      var q :| sig.Positional() <= q < sig.Positional() + sig.kwonly && sig.names[q] == name;
      CompletedFixed(sig, args, kwargs, q);
    }
  }

  /** A trailing positional parameter given no value takes its default. */
  lemma BindPosDefault<V>(sig: Signature<V>, args: seq<V>, kwargs: Keywords<V>, d: nat)
    requires sig.Valid() && DistinctKeys(kwargs) && d < |sig.defaults|
    requires sig.names[sig.DefaultsStart() + d] !in KeyNames(kwargs)
    ensures var name := sig.names[sig.DefaultsStart() + d];
      Bind(sig, args, kwargs).Ok? && name !in PositionallyBound(sig, args, kwargs) ==>
        && name in Bind(sig, args, kwargs).bound
        && Bind(sig, args, kwargs).bound[name] == Single(sig.defaults[d])
  {
    var name := sig.names[sig.DefaultsStart() + d];
    if Bind(sig, args, kwargs).Ok? && name !in PositionallyBound(sig, args, kwargs) {
      BindAccepted(sig, args, kwargs);
      DefaultedPosDefault(sig, args, kwargs, d);
      CompletedFixed(sig, args, kwargs, sig.DefaultsStart() + d);
    }
  }

  /**
   * The `*args` slot holds the positional values routed to it, in call
   * order (all of them when there is no `**kwargs`); the `**kwargs` slot
   * holds exactly the keywords that name no parameter, with their values.
   */
  lemma BindVariadicSlots<V>(sig: Signature<V>, args: seq<V>, kwargs: Keywords<V>)
    requires sig.Valid() && DistinctKeys(kwargs)
    ensures Bind(sig, args, kwargs).Ok? && sig.hasArgs ==>
      && sig.names[sig.ArgsSlot()] in Bind(sig, args, kwargs).bound
      && Bind(sig, args, kwargs).bound[sig.names[sig.ArgsSlot()]] == Tuple(Routed(sig, args, KeyNames(kwargs), |args|))
      && (!sig.hasKwargs ==> Bind(sig, args, kwargs).bound[sig.names[sig.ArgsSlot()]] == Tuple(args))
    ensures Bind(sig, args, kwargs).Ok? && sig.hasKwargs ==>
      && sig.names[sig.KwargsSlot()] in Bind(sig, args, kwargs).bound
      && Bind(sig, args, kwargs).bound[sig.names[sig.KwargsSlot()]].Dict?
      && (forall k :: k in Bind(sig, args, kwargs).bound[sig.names[sig.KwargsSlot()]].entries <==>
            k !in sig.names && k in KeyNames(kwargs))
      && (forall j :: 0 <= j < |kwargs| && kwargs[j].0 !in sig.names ==>
            Bind(sig, args, kwargs).bound[sig.names[sig.KwargsSlot()]].entries[kwargs[j].0] == kwargs[j].1)
  {
    if Bind(sig, args, kwargs).Ok? {
      BindAccepted(sig, args, kwargs);
      if sig.hasArgs && !sig.hasKwargs {
        RoutedAll(sig, args, KeyNames(kwargs), |args|);
        assert args[..|args|] == args;
      }
      if sig.hasKwargs {
        var extra := ExtraKeywords(sig, kwargs, |kwargs|);
        ExtraKeywordsKeys(sig, kwargs, |kwargs|);
        forall j | 0 <= j < |kwargs| && kwargs[j].0 !in sig.names
          ensures kwargs[j].0 in extra && extra[kwargs[j].0] == kwargs[j].1
        {
          ExtraKeywordsAt(sig, kwargs, |kwargs|, j);
        }
      }
    }
  }

  /** A function taking only `*args` binds every call without keywords to the whole tuple. */
  lemma OnlyVarArgs<V>(name: string, args: seq<V>)
    ensures Bind(Signature([name], [], map[], 0, true, false), args, []) == Ok(map[name := Tuple(args)])
  {
    var sig: Signature<V> := Signature([name], [], map[], 0, true, false);
    var keys := KeyNames<V>([]);
    assert sig.Valid();
    assert PositionalBound(sig, args, keys, |args|) == map[] by {
      PositionalBoundKeys(sig, args, keys, |args|);
    }
    assert Distributed(sig, args, []) == map[];
    assert Defaulted(sig, args, []) == map[];
    RoutedAll(sig, args, keys, |args|);
    assert args[..|args|] == args;
    assert Completed(sig, args, []) == map[name := Tuple(args)];
    BindAccepted(sig, args, []);
  }


  /** A function taking only `**kwargs` binds every call without positional values to the dict of its keywords. */
  lemma OnlyVarKwargs<V>(name: string, kwargs: Keywords<V>)
    requires DistinctKeys(kwargs)
    ensures var sig: Signature<V> := Signature([name], [], map[], 0, false, true);
      Bind(sig, [], kwargs) == Ok(map[name := Dict(ExtraKeywords(sig, kwargs, |kwargs|))])
  {
    var sig: Signature<V> := Signature([name], [], map[], 0, false, true);
    assert sig.Valid();
    OnlyVarKwargsAccepted(sig, kwargs);
    OnlyVarKwargsCompleted(sig, kwargs);
    BindAccepted(sig, [], kwargs);
  }


  /** With only `**kwargs` and no positional values, no keyword offends. */
  lemma OnlyVarKwargsAccepted<V>(sig: Signature<V>, kwargs: Keywords<V>)
    requires sig.Shaped() && |sig.names| == 1 && !sig.hasArgs && sig.hasKwargs
    ensures KeywordOffence(sig, [], kwargs) == None
  {
    var bound := PositionalBound(sig, [], KeyNames(kwargs), 0).Keys;
    assert bound == {};
    assert forall j :: 0 <= j < |kwargs| ==> Offence(sig, bound, kwargs[j].0) == None;
    FirstOffenceNone(sig, bound, kwargs, |kwargs|);
  }

  /** With only `**kwargs` and no positional values, the one name is bound to the dict. */
  lemma OnlyVarKwargsCompleted<V>(sig: Signature<V>, kwargs: Keywords<V>)
    requires sig == Signature(sig.names, [], map[], 0, false, true) && |sig.names| == 1
    ensures Completed(sig, [], kwargs) == map[sig.names[0] := Dict(ExtraKeywords(sig, kwargs, |kwargs|))]
  {
    NamedKeywordsKeys(sig, kwargs, |kwargs|);
    assert Distributed(sig, [], kwargs).Keys <= {sig.names[0]};
    assert Defaulted(sig, [], kwargs).Keys <= {sig.names[0]};
  }

  /**
   * Without `*args`, the early checks admit as many positional values as
   * there are names, slots included; a value landing on the `**kwargs`
   * name is then replaced by the dict.
   */
  lemma ExtraPositionalOverwritten<V>(x: V, y: V)
    ensures Bind(Signature(["a", "kw"], [], map[], 0, false, true), [x, y], [])
      == Ok(map["a" := Single(x), "kw" := Dict(map[])])
  {
    var sig: Signature<V> := Signature(["a", "kw"], [], map[], 0, false, true);
    var args := [x, y];
    assert sig.Valid();
    var keys := KeyNames<V>([]);
    assert keys == {};
    assert PositionalBound(sig, args, keys, 1) == map["a" := Single(x)];
    assert PositionalBound(sig, args, keys, 2) == map["a" := Single(x), "kw" := Single(y)];
    assert KeywordOffence(sig, args, []) == None;
    assert Distributed(sig, args, []) == map["a" := Single(x), "kw" := Single(y)];
    assert Defaulted(sig, args, []) == map["a" := Single(x), "kw" := Single(y)];
    assert Completed(sig, args, []) == map["a" := Single(x), "kw" := Dict(map[])];
    BindAccepted(sig, args, []);
  }

  /**
   * Without `*args` but with `**kwargs`, the early checks admit one more
   * positional value than there are positional parameters. It lands on the
   * first keyword-only name: `def f(a, *, b=5, **kw)` called as `f(1, 2)`
   * binds `b` to 2.
   */
  lemma KwOnlyFilledPositionally<V>(x: V, y: V, z: V)
    ensures Signature(["a", "b", "kw"], [], map["b" := z], 1, false, true).Valid()
    ensures Bind(Signature(["a", "b", "kw"], [], map["b" := z], 1, false, true), [x, y], [])
      == Ok(map["a" := Single(x), "b" := Single(y), "kw" := Dict(map[])])
  {
    var sig: Signature<V> := Signature(["a", "b", "kw"], [], map["b" := z], 1, false, true);
    var args := [x, y];
    assert sig.names[1] == "b";
    assert sig.Valid();
    var keys := KeyNames<V>([]);
    assert keys == {};
    assert PositionalBound(sig, args, keys, 1) == map["a" := Single(x)];
    assert PositionalBound(sig, args, keys, 2) == map["a" := Single(x), "b" := Single(y)];
    assert KeywordOffence(sig, args, []) == None;
    assert Distributed(sig, args, []) == map["a" := Single(x), "b" := Single(y)];
    assert KwDefaultsFill(sig, Distributed(sig, args, []), sig.kwdefaults.Keys) == map[];
    assert Defaulted(sig, args, []) == map["a" := Single(x), "b" := Single(y)];
    assert Completed(sig, args, []) == map["a" := Single(x), "b" := Single(y), "kw" := Dict(map[])];
    BindAccepted(sig, args, []);
  }

  /**
   * With both `*args` and `**kwargs`, a positional value at the index of a
   * keyword-only parameter that is neither given as a keyword nor defaulted
   * is bound to it: `def f(a, *args, b, **kw)` called as `f(1, 2, 3, z=9)`
   * binds `b` to 2 and only 3 goes to the tuple.
   */
  lemma KwOnlyFilledPositionallyWithVarArgs<V>(x: V, y: V, w: V, v: V)
    ensures Bind(Signature(["a", "b", "args", "kw"], [], map[], 1, true, true), [x, y, w], [("z", v)])
      == Ok(map["a" := Single(x), "b" := Single(y), "args" := Tuple([w]), "kw" := Dict(map["z" := v])])
  {
    var sig: Signature<V> := Signature(["a", "b", "args", "kw"], [], map[], 1, true, true);
    KwOnlyVarArgsDistribution(sig, x, y, w);
    KwOnlyVarArgsCompleted(sig, x, y, w, v);
    BindAccepted(sig, [x, y, w], [("z", v)]);
  }

  /** The keyword loop for `f(1, 2, 3, z=9)` over `def f(a, *args, b, **kw)`. */
  lemma KwOnlyVarArgsKeywords<V>(sig: Signature<V>, x: V, y: V, w: V, v: V)
    requires sig == Signature(["a", "b", "args", "kw"], [], map[], 1, true, true)
    ensures KeyNames([("z", v)]) == {"z"}
    ensures KeywordOffence(sig, [x, y, w], [("z", v)]) == None
    ensures NamedKeywords(sig, [("z", v)], 1) == map[]
    ensures ExtraKeywords(sig, [("z", v)], 1) == map["z" := v]
  {
    var kwargs := [("z", v)];
    assert KeyNames(kwargs) == {"z"} by {
      assert kwargs[0].0 == "z";
    }
    KwOnlyVarArgsDistribution(sig, x, y, w);
    assert PositionallyBound(sig, [x, y, w], kwargs) == {"a", "b"};
    assert FirstOffence(sig, {"a", "b"}, kwargs, 1) == None;
  }

  /** The default and slot filling for `f(1, 2, 3, z=9)` over `def f(a, *args, b, **kw)`. */
  lemma KwOnlyVarArgsCompleted<V>(sig: Signature<V>, x: V, y: V, w: V, v: V)
    requires sig == Signature(["a", "b", "args", "kw"], [], map[], 1, true, true)
    ensures EarlyCheck(sig, [x, y, w], [("z", v)]) == None
    ensures KeywordOffence(sig, [x, y, w], [("z", v)]) == None
    ensures Completed(sig, [x, y, w], [("z", v)])
      == map["a" := Single(x), "b" := Single(y), "args" := Tuple([w]), "kw" := Dict(map["z" := v])]
    ensures |Completed(sig, [x, y, w], [("z", v)])| == |sig.names|
  {
    var args := [x, y, w];
    var kwargs := [("z", v)];
    var pb := map["a" := Single(x), "b" := Single(y)];
    KwOnlyVarArgsDistribution(sig, x, y, w);
    KwOnlyVarArgsKeywords(sig, x, y, w, v);
    assert Distributed(sig, args, kwargs) == pb;
    assert Defaulted(sig, args, kwargs) == pb;
    assert Completed(sig, args, kwargs).Keys == {"a", "b", "args", "kw"};
  }

  /** How the positional loop distributes `f(1, 2, 3, z=9)` over `def f(a, *args, b, **kw)`. */
  lemma KwOnlyVarArgsDistribution<V>(sig: Signature<V>, x: V, y: V, w: V)
    requires sig == Signature(["a", "b", "args", "kw"], [], map[], 1, true, true)
    ensures sig.Valid()
    ensures PositionalBound(sig, [x, y, w], {"z"}, 3) == map["a" := Single(x), "b" := Single(y)]
    ensures Routed(sig, [x, y, w], {"z"}, 3) == [w]
  {
    var args := [x, y, w];
    assert !ToTuple(sig, {"z"}, 0) && !ToTuple(sig, {"z"}, 1) && ToTuple(sig, {"z"}, 2);
    assert PositionalBound(sig, args, {"z"}, 1) == map["a" := Single(x)];
    assert PositionalBound(sig, args, {"z"}, 2) == map["a" := Single(x), "b" := Single(y)];
    assert Routed(sig, args, {"z"}, 1) == [];
    assert Routed(sig, args, {"z"}, 2) == [];
  }

  /**
   * A keyword naming the `**kwargs` parameter is bound to that name and then
   * replaced by the dict: `def f(**kw)` called as `f(kw=1)` binds `kw` to `{}`.
   */
  lemma KwargsNameKeywordLost<V>(v: V)
    ensures Bind(Signature(["kw"], [], map[], 0, false, true), [], [("kw", v)])
      == Ok(map["kw" := Dict(map[])])
  {
    var sig: Signature<V> := Signature(["kw"], [], map[], 0, false, true);
    var kwargs := [("kw", v)];
    OnlyVarKwargs("kw", kwargs);
    assert ExtraKeywords(sig, kwargs, 1) == map[];
  }

  /**
   * A keyword naming the `*args` parameter is bound to that name and then
   * replaced by the tuple: `def f(*args)` called as `f(args=1)` binds `args`
   * to `()`.
   */
  lemma ArgsNameKeywordLost<V>(v: V)
    ensures Bind(Signature(["args"], [], map[], 0, true, false), [], [("args", v)])
      == Ok(map["args" := Tuple([])])
  {
    var sig: Signature<V> := Signature(["args"], [], map[], 0, true, false);
    var kwargs := [("args", v)];
    assert sig.Valid();
    var keys := KeyNames(kwargs);
    assert PositionalBound(sig, [], keys, 0).Keys == {};
    assert FirstOffence(sig, {}, kwargs, 1) == None;
    assert KeywordOffence(sig, [], kwargs) == None;
    assert NamedKeywords(sig, kwargs, 1) == map["args" := Single(v)];
    assert Distributed(sig, [], kwargs) == map["args" := Single(v)];
    assert Defaulted(sig, [], kwargs) == map["args" := Single(v)];
    assert Completed(sig, [], kwargs) == map["args" := Tuple([])];
    BindAccepted(sig, [], kwargs);
  }

}
