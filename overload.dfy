/** Overload resolution of `LanguageServer.matchParams`: which of a class's
    constructor or method parameter lists a call's arguments select, under the
    strict policy (arity and every type tag) or the loose one (arity only).
    The first matching candidate in declaration order wins. */
module Overload {

  /** One argument as it travels on the wire: a one-entry JSON object that
      maps the literal value to its type tag. */
  datatype Arg = Arg(value: string, tag: string)

  /** A declared parameter list: one type tag per position. */
  type Signature = seq<string>

  /** The declared tag that accepts an argument of any tag. */
  const Wildcard := "any"

  /** A declared tag accepts an argument's tag when it is the wildcard or
      the same tag. */
  predicate Accepts(declared: string, actual: string) {
    declared == Wildcard || declared == actual
  }

  /** Whether a candidate parameter list fits the arguments: equal arity and,
      when `strict`, every declared tag accepts the argument's tag at the
      same position. */
  predicate Matches(params: Signature, args: seq<Arg>, strict: bool) {
    |params| == |args| &&
    (strict ==> forall j :: 0 <= j < |params| ==> Accepts(params[j], args[j].tag))
  }

  /** The first-match rule: the least index whose candidate fits, or -1 when
      none does. */
  function FirstMatch(candidates: seq<Signature>, args: seq<Arg>, strict: bool): (r: int)
    ensures -1 <= r < |candidates|
    ensures r >= 0 ==> Matches(candidates[r], args, strict)
    ensures forall k :: 0 <= k < |candidates| && (r < 0 || k < r) ==> !Matches(candidates[k], args, strict)
  {
    if candidates == [] then -1
    else if Matches(candidates[0], args, strict) then 0
    else
      var r := FirstMatch(candidates[1..], args, strict);
      if r < 0 then -1 else r + 1
  }

  /** The first-match rule has one answer: any index that fits while all
      earlier candidates do not is the one `FirstMatch` gives, and so is -1
      when nothing fits. */
  lemma FirstMatchUnique(candidates: seq<Signature>, args: seq<Arg>, strict: bool, r: int)
    requires -1 <= r < |candidates|
    requires r >= 0 ==> Matches(candidates[r], args, strict)
    requires forall k :: 0 <= k < |candidates| && (r < 0 || k < r) ==> !Matches(candidates[k], args, strict)
    ensures r == FirstMatch(candidates, args, strict)
  {
    var f := FirstMatch(candidates, args, strict);
    if r >= 0 && f >= 0 {
      assert !(f < r) && !(r < f);
    }
  }

  /** `matchParams`: scans the candidates in order and stops at the first one
      that fits, checking tags position by position only in strict mode. */
  method MatchParams(possibleParameters: seq<Signature>, arguments: seq<Arg>, isStrict: bool)
    returns (r: int)
    ensures r == FirstMatch(possibleParameters, arguments, isStrict)
  {
    var found := false;
    var i := 0;
    while i < |possibleParameters|
      invariant 0 <= i <= |possibleParameters|
      invariant forall k :: 0 <= k < i ==> !Matches(possibleParameters[k], arguments, isStrict)
      invariant !found
    {
      var checkParameter := possibleParameters[i];
      if isStrict {
        if |checkParameter| == |arguments| {
          var matches := true;
          var j := 0;
          while j < |checkParameter|
            invariant 0 <= j <= |checkParameter|
            invariant matches
            invariant forall m :: 0 <= m < j ==> Accepts(checkParameter[m], arguments[m].tag)
          {
            var tag := arguments[j].tag;
            if checkParameter[j] != Wildcard && tag != checkParameter[j] {
              matches := false;
              break;
            }
            j := j + 1;
          }
          if matches {
            found := true;
            break;
          }
        }
      } else {
        if |checkParameter| == |arguments| {
          found := true;
          break;
        }
      }
      i := i + 1;
    }
    if !found {
      r := -1;
    } else {
      r := i;
    }
    FirstMatchUnique(possibleParameters, arguments, isStrict, r);
  }

  /** A strict match always has equal arity, so it is also a loose match. */
  lemma StrictMatchIsLoose(params: Signature, args: seq<Arg>)
    ensures Matches(params, args, true) ==> Matches(params, args, false)
  {
  }

  /** In loose mode the answer is the first candidate whose length equals the
      number of arguments. */
  lemma LooseIsFirstArity(candidates: seq<Signature>, args: seq<Arg>)
    ensures var r := FirstMatch(candidates, args, false);
      (r >= 0 ==> |candidates[r]| == |args|) &&
      forall k :: 0 <= k < |candidates| && (r < 0 || k < r) ==> |candidates[k]| != |args|
  {
  }

  /** Whenever strict resolution succeeds, loose resolution succeeds too and
      picks the same candidate or an earlier one. */
  lemma LooseNotAfterStrict(candidates: seq<Signature>, args: seq<Arg>)
    requires FirstMatch(candidates, args, true) >= 0
    ensures 0 <= FirstMatch(candidates, args, false) <= FirstMatch(candidates, args, true)
  {
    var s := FirstMatch(candidates, args, true);
    StrictMatchIsLoose(candidates[s], args);
  }

  /** Registering more overloads after the existing ones never changes which
      of the existing ones a call selects; the new ones are reached only when
      none of the existing ones fits. */
  lemma {:induction false} FirstMatchAppend(earlier: seq<Signature>, later: seq<Signature>, args: seq<Arg>, strict: bool)
    ensures FirstMatch(earlier + later, args, strict) ==
      var e := FirstMatch(earlier, args, strict);
      if e >= 0 then e
      else var l := FirstMatch(later, args, strict); if l < 0 then -1 else |earlier| + l
  {
    if earlier != [] {
      assert (earlier + later)[0] == earlier[0];
      assert (earlier + later)[1..] == earlier[1..] + later;
      FirstMatchAppend(earlier[1..], later, args, strict);
    } else {
      assert earlier + later == later;
    }
  }

  /** Strict and loose policies on one argument tagged "string" against the
      constructors ["int"] and ["string"]: strict selects the second, loose
      the first, whose arity already fits. */
  lemma StrictVersusLooseExample()
    ensures FirstMatch([["int"], ["string"]], [Arg("s", "string")], true) == 1
    ensures FirstMatch([["int"], ["string"]], [Arg("s", "string")], false) == 0
  {
    var c: seq<Signature> := [["int"], ["string"]];
    var a := [Arg("s", "string")];
    assert !Accepts(c[0][0], a[0].tag);
    assert !Matches(c[0], a, true);
  }

  /** One argument against the single two-parameter candidate `["int",
      "int"]`: no candidate fits, in either mode. */
  lemma NoMatchExample(strict: bool)
    ensures FirstMatch([["int", "int"]], [Arg("1", "int")], strict) == -1
  {
  }
}
