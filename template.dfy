/**
 * The loop every entry point of styled.ts uses to turn a tagged template
 * into a CSS body: fragment i is followed by argument i while there is one,
 * so `s0 + a0 + s1 + a1 + ... + sk`.
 */
module Template {
  import opened Strings

  /** Fragment `i` followed by argument `i`, if the template has one. */
  function Segment(fragment: string, i: nat, args: seq<string>): string {
    if i < |args| then fragment + args[i] else fragment
  }

  /** How many arguments a template of `n` fragments reads. */
  function UsedArgs(n: nat, args: seq<string>): nat {
    if |args| < n then |args| else n
  }

  /**
   * The text the `ostyle.forEach` loop accumulates, defined from its last step.
   * Every fragment and every argument it reads contribute all of their characters.
   */
  function Interleave(fragments: seq<string>, args: seq<string>): (r: string)
    ensures |r| == TotalLength(fragments) + TotalLength(args[..UsedArgs(|fragments|, args)])
  {
    if fragments == [] then ""
    else
      var n := |fragments|;
      assert n - 1 < |args| ==> args[..n][..n - 1] == args[..n - 1];
      Interleave(fragments[..n - 1], args) + Segment(fragments[n - 1], n - 1, args)
  }

  /** The loop itself: `defaultStyle += stylestr + args[i]` or `defaultStyle += stylestr`. */
  method BuildCss(fragments: seq<string>, args: seq<string>) returns (css: string)
    ensures css == Interleave(fragments, args)
  {
    css := "";
    var argLen := |args|;
    var i := 0;
    while i < |fragments|
      invariant 0 <= i <= |fragments|
      invariant css == Interleave(fragments[..i], args)
    {
      if i < argLen {
        css := css + fragments[i] + args[i];
      } else {
        css := css + fragments[i];
      }
      assert fragments[..i + 1][..i] == fragments[..i];
      i := i + 1;
    }
    assert fragments[..|fragments|] == fragments;
  }

  /** Reference definition read from the front: the first fragment, the first argument, then the rest. */
  function Zip(fragments: seq<string>, args: seq<string>): string {
    if fragments == [] then ""
    else if args == [] then fragments[0] + Zip(fragments[1..], [])
    else fragments[0] + args[0] + Zip(fragments[1..], args[1..])
  }

  /** Concatenation of the fragments alone. */
  function Concat(fragments: seq<string>): string {
    if fragments == [] then "" else fragments[0] + Concat(fragments[1..])
  }

  function Rest(args: seq<string>): seq<string> {
    if args == [] then [] else args[1..]
  }

  /** Peeling the first segment off the loop's result. */
  lemma {:induction false} InterleaveFront(fragments: seq<string>, args: seq<string>)
    requires fragments != []
    ensures Interleave(fragments, args)
         == Segment(fragments[0], 0, args) + Interleave(fragments[1..], Rest(args))
  {
    var n := |fragments|;
    if n > 1 {
      var front := fragments[..n - 1];
      InterleaveFront(front, args);
      assert front[1..] == fragments[1..][..n - 2];
      assert Segment(fragments[n - 1], n - 1, args) == Segment(fragments[1..][n - 2], n - 2, Rest(args));
    } else {
      assert fragments[..0] == [] && fragments[1..] == [];
    }
  }

  /** The loop builds exactly `s0 + a0 + s1 + a1 + ... + sk`. */
  lemma {:induction false} InterleaveIsZip(fragments: seq<string>, args: seq<string>)
    ensures Interleave(fragments, args) == Zip(fragments, args)
    decreases |fragments|
  {
    if fragments != [] {
      InterleaveFront(fragments, args);
      InterleaveIsZip(fragments[1..], Rest(args));
    }
  }

  lemma {:induction false} ZipWithoutArgs(fragments: seq<string>)
    ensures Zip(fragments, []) == Concat(fragments)
  {
    if fragments != [] {
      ZipWithoutArgs(fragments[1..]);
    }
  }

  /** With no interpolations the CSS body is the fragments joined with nothing between them. */
  lemma InterleaveWithoutArgs(fragments: seq<string>)
    ensures Interleave(fragments, []) == Concat(fragments)
  {
    InterleaveIsZip(fragments, []);
    ZipWithoutArgs(fragments);
  }

  /** Arguments beyond the fragment count are never read. */
  lemma {:induction false} InterleaveDropsExtraArgs(fragments: seq<string>, args: seq<string>)
    requires |fragments| <= |args|
    ensures Interleave(fragments, args) == Interleave(fragments, args[..|fragments|])
  {
    var n := |fragments|;
    if n > 0 {
      var front := fragments[..n - 1];
      InterleaveDropsExtraArgs(front, args);
      InterleaveDropsExtraArgs(front, args[..n]);
      assert args[..n][..n - 1] == args[..n - 1];
    }
  }

  /**
   * An interpolated value of a template: a plain string or number
   * (`SupportedHtmlType`, numbers already in their text form) or a callback
   * computing one from the component's props (`ElementCallBackFun`).
   */
  datatype Arg<-P> = Value(text: string) | Callback(fn: P -> string)

  predicate AllValues<P>(args: seq<Arg<P>>) {
    forall i | 0 <= i < |args| :: args[i].Value?
  }

  predicate AllCallbacks<P>(args: seq<Arg<P>>) {
    forall i | 0 <= i < |args| :: args[i].Callback?
  }

  /**
   * `isSupportElementArray`: an empty list, or one whose first element is not
   * a function. For the argument lists the declared type admits (all values
   * or all callbacks) this is exactly "all values".
   */
  predicate IsSupportElementArray<P>(args: seq<Arg<P>>): (r: bool)
    ensures AllValues(args) || AllCallbacks(args) ==> (r <==> AllValues(args))
  {
    |args| == 0 || !args[0].Callback?
  }

  function Values<P>(args: seq<Arg<P>>): (r: seq<string>)
    requires AllValues(args)
    ensures |r| == |args| && forall i | 0 <= i < |args| :: args[i] == Value(r[i])
  {
    seq(|args|, i requires 0 <= i < |args| => args[i].text)
  }

  function Callbacks<P>(args: seq<Arg<P>>): (r: seq<P -> string>)
    requires AllCallbacks(args)
    ensures |r| == |args| && forall i | 0 <= i < |args| :: args[i] == Callback(r[i])
  {
    seq(|args|, i requires 0 <= i < |args| => args[i].fn)
  }

  /** `args[i](props)` for every callback. */
  function Evaluate<P>(callbacks: seq<P -> string>, props: P): (r: seq<string>)
    ensures |r| == |callbacks| && forall i | 0 <= i < |r| :: r[i] == callbacks[i](props)
  {
    seq(|callbacks|, i requires 0 <= i < |callbacks| => callbacks[i](props))
  }
}
