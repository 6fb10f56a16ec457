/**
  The split of the trainable variables between the two optimizers in
  `get_optimizer` (cly_dcgan.py:215-235). Variables are identified by their
  names; the generator's live under the scope "generator", the
  discriminator's under "discriminator". Each optimizer minimizes its loss
  over its own list only.
 */
module VarPartition {

  const GeneratorScope: string := "generator"
  const DiscriminatorScope: string := "discriminator"

  /** Python's `str.startswith`: the name is at least as long and agrees with the prefix character by character. */
  predicate StartsWith(name: string, prefix: string)
    ensures StartsWith(name, prefix) <==> |prefix| <= |name| && forall i :: 0 <= i < |prefix| ==> name[i] == prefix[i]
  {
    |prefix| <= |name| && name[..|prefix|] == prefix
  }

  /** `[var for var in vars if var.name.startswith(prefix)]`. */
  function Select(vars: seq<string>, prefix: string): (r: seq<string>)
    ensures forall i :: 0 <= i < |r| ==> StartsWith(r[i], prefix)
    ensures forall x :: x in r <==> x in vars && StartsWith(x, prefix)
    ensures forall x :: multiset(r)[x] == if StartsWith(x, prefix) then multiset(vars)[x] else 0
  {
    if vars == [] then []
    else
      var rest := Select(vars[1..], prefix);
      assert vars == [vars[0]] + vars[1..];
      if StartsWith(vars[0], prefix) then [vars[0]] + rest else rest
  }

  /** `sub` is `full` with some entries dropped and the rest kept in order. */
  predicate IsSublist(sub: seq<string>, full: seq<string>)
    decreases |full|
  {
    if sub == [] then true
    else if full == [] then false
    else if sub[0] == full[0] then IsSublist(sub[1..], full[1..])
    else IsSublist(sub, full[1..])
  }

  /** The selected list keeps the order of the trainable list. */
  lemma {:induction false} SelectIsSublist(vars: seq<string>, prefix: string)
    ensures IsSublist(Select(vars, prefix), vars)
    decreases |vars|
  {
    if vars != [] {
      SelectIsSublist(vars[1..], prefix);
      var rest := Select(vars[1..], prefix);
      if StartsWith(vars[0], prefix) {
        assert ([vars[0]] + rest)[1..] == rest;
      } else if rest != [] {
        assert rest[0] in rest;
        assert rest[0] != vars[0];
      }
    }
  }

  /** The two lists of `get_optimizer` (lines 227-229). */
  datatype VarLists = VarLists(g: seq<string>, d: seq<string>)

  function Partition(trainVars: seq<string>): (r: VarLists)
    ensures forall i :: 0 <= i < |r.g| ==> StartsWith(r.g[i], GeneratorScope)
    ensures forall i :: 0 <= i < |r.d| ==> StartsWith(r.d[i], DiscriminatorScope)
  {
    VarLists(Select(trainVars, GeneratorScope), Select(trainVars, DiscriminatorScope))
  }

  /** No name starts with both scopes: they differ in their first character. */
  lemma ScopesExclusive(name: string)
    ensures !(StartsWith(name, GeneratorScope) && StartsWith(name, DiscriminatorScope))
  {
    if StartsWith(name, GeneratorScope) {
      assert name[0] == name[..|GeneratorScope|][0] == 'g';
    }
  }

  /**
    Both lists are order-preserving sublists of the trainable list, and no
    variable is in both.
   */
  lemma PartitionDisjoint(trainVars: seq<string>, x: string)
    ensures IsSublist(Partition(trainVars).g, trainVars) && IsSublist(Partition(trainVars).d, trainVars)
    ensures !(x in Partition(trainVars).g && x in Partition(trainVars).d)
  {
    SelectIsSublist(trainVars, GeneratorScope);
    SelectIsSublist(trainVars, DiscriminatorScope);
    ScopesExclusive(x);
  }

  /**
    When every trainable variable lives under one of the two scopes, the two
    lists together hold every variable exactly as often as the trainable list.
   */
  lemma PartitionCovers(trainVars: seq<string>)
    requires forall i :: 0 <= i < |trainVars| ==>
               StartsWith(trainVars[i], GeneratorScope) || StartsWith(trainVars[i], DiscriminatorScope)
    ensures multiset(Partition(trainVars).g) + multiset(Partition(trainVars).d) == multiset(trainVars)
    ensures |Partition(trainVars).g| + |Partition(trainVars).d| == |trainVars|
  {
    var p := Partition(trainVars);
    forall x
      ensures (multiset(p.g) + multiset(p.d))[x] == multiset(trainVars)[x]
    {
      ScopesExclusive(x);
      if x in trainVars {
        var i :| 0 <= i < |trainVars| && trainVars[i] == x;
      }
    }
    assert multiset(p.g) + multiset(p.d) == multiset(trainVars);
    assert |multiset(p.g) + multiset(p.d)| == |multiset(trainVars)|;
  }

  // ---------------------------------------------------------------------
  // What each optimizer step may change

  /** Values of the trainable variables, by name. */
  type Params = map<string, real>

  /**
    `minimize(loss, var_list=varList)` (lines 232-233) as far as which
    variables it touches: `update` gives the new value of each listed
    variable; everything else keeps its value.
   */
  function Minimize(params: Params, varList: seq<string>, update: string -> real): (p: Params)
    ensures p.Keys == params.Keys
    ensures forall x :: x in params ==> p[x] == if x in varList then update(x) else params[x]
  {
    map x | x in params :: if x in varList then update(x) else params[x]
  }

  /** A discriminator step leaves every generator variable as it was. */
  lemma DiscriminatorStepKeepsGenerator(params: Params, trainVars: seq<string>, update: string -> real, x: string)
    requires x in params && StartsWith(x, GeneratorScope)
    ensures Minimize(params, Partition(trainVars).d, update)[x] == params[x]
  {
    ScopesExclusive(x);
  }

  /** A generator step leaves every discriminator variable as it was. */
  lemma GeneratorStepKeepsDiscriminator(params: Params, trainVars: seq<string>, update: string -> real, x: string)
    requires x in params && StartsWith(x, DiscriminatorScope)
    ensures Minimize(params, Partition(trainVars).g, update)[x] == params[x]
  {
    ScopesExclusive(x);
  }
}
