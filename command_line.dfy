/** Command lines as the scripts assemble them: options appended one after another, each
    led by a space, and what tokenising them at single spaces (Python's `split(' ')`) gives
    back. A shell collapses runs of blanks instead, so an empty token here (a doubled
    space) is one the shell does not see; otherwise the two agree. */
module CommandLine {
  import opened Results
  import opened PyStr

  /** The tokens, each preceded by one space. */
  function Words(ts: seq<string>): string
    decreases |ts|
  {
    if |ts| == 0 then "" else " " + ts[0] + Words(ts[1..])
  }

  /** `''.join([prefix + x for x in xs])`. */
  function Prefixed(prefix: string, xs: seq<string>): string
  {
    Concat(seq(|xs|, i requires 0 <= i < |xs| => prefix + xs[i]))
  }

  /** `[prefix + x for x in xs]`. */
  function Tagged(prefix: string, xs: seq<string>): (r: seq<string>)
    ensures |r| == |xs|
  {
    seq(|xs|, i requires 0 <= i < |xs| => prefix + xs[i])
  }

  /** No token holds a space. */
  predicate SpaceFree(ts: seq<string>)
  {
    forall i :: 0 <= i < |ts| ==> ' ' !in ts[i]
  }

  lemma SpaceFreeAppend(a: seq<string>, b: seq<string>)
    requires SpaceFree(a) && SpaceFree(b)
    ensures SpaceFree(a + b)
  {
    forall i | 0 <= i < |a + b| ensures ' ' !in (a + b)[i] {
      if i < |a| { assert (a + b)[i] == a[i]; } else { assert (a + b)[i] == b[i - |a|]; }
    }
  }

  lemma TaggedSpaceFree(prefix: string, xs: seq<string>)
    requires ' ' !in prefix && SpaceFree(xs)
    ensures SpaceFree(Tagged(prefix, xs))
  {
    forall i | 0 <= i < |xs| ensures ' ' !in Tagged(prefix, xs)[i] {
      assert Tagged(prefix, xs)[i] == prefix + xs[i];
    }
  }

  lemma JoinCons(x: string, ts: seq<string>, sep: char)
    ensures Join([x] + ts, sep) == if |ts| == 0 then x else x + [sep] + Join(ts, sep)
  {
    assert ([x] + ts)[1..] == ts;
  }

  lemma WordsOfOne(t: string)
    ensures Words([t]) == " " + t
  {
    assert Words([t]) == " " + t + Words([]);
  }

  /** An option and its value. */
  lemma WordsOfPair(option: string, value: string)
    ensures Words([option, value]) == " " + option + " " + value
  {
    assert [option, value][1..] == [value];
    WordsOfOne(value);
  }

  /** Appending an option and its value to a command line. */
  lemma WordsSnocPair(x: string, ts: seq<string>, option: string, value: string, lit: string)
    requires lit == " " + option + " "
    ensures x + Words(ts + [option, value]) == x + Words(ts) + lit + value
  {
    WordsAppend(ts, [option, value]);
    WordsOfPair(option, value);
  }

  /** A word followed by space-led tokens is the space-join of all of them. */
  lemma {:induction false} WordsAfter(x: string, ts: seq<string>)
    ensures x + Words(ts) == Join([x] + ts, ' ')
    decreases |ts|
  {
    JoinCons(x, ts, ' ');
    if |ts| > 0 {
      WordsAfter(ts[0], ts[1..]);
      assert [ts[0]] + ts[1..] == ts;
    }
  }

  lemma {:induction false} WordsAppend(a: seq<string>, b: seq<string>)
    ensures Words(a + b) == Words(a) + Words(b)
    decreases |a|
  {
    if |a| > 0 {
      assert (a + b)[1..] == a[1..] + b;
      WordsAppend(a[1..], b);
    } else {
      assert a + b == b;
    }
  }

  /** Options appended as `' --opt=' + x` are the tokens `--opt=x`, each led by a space. */
  lemma {:induction false} PrefixedAreWords(opt: string, xs: seq<string>)
    ensures Prefixed(" " + opt, xs) == Words(Tagged(opt, xs))
    decreases |xs|
  {
    if |xs| > 0 {
      PrefixedAreWords(opt, xs[1..]);
      assert seq(|xs|, i requires 0 <= i < |xs| => " " + opt + xs[i])[1..]
          == seq(|xs[1..]|, i requires 0 <= i < |xs[1..]| => " " + opt + xs[1..][i]);
      assert Tagged(opt, xs)[1..] == Tagged(opt, xs[1..]);
    }
  }

  /** Tokenised at single spaces, a word followed by space-led tokens gives the word and
      the tokens back, in order, as long as none of them holds a space. */
  lemma WordsReadBack(x: string, ts: seq<string>)
    requires ' ' !in x && SpaceFree(ts)
    ensures Split(x + Words(ts), ' ') == [x] + ts
  {
    WordsAfter(x, ts);
    SplitJoin([x] + ts, ' ');
  }

  /** A command line followed by the words of two token lists. */
  lemma WordsConcat(x: string, a: seq<string>, b: seq<string>)
    ensures x + Words(a + b) == x + Words(a) + Words(b)
  {
    WordsAppend(a, b);
    assert x + (Words(a) + Words(b)) == x + Words(a) + Words(b);
  }

  /** Appending `opt + value` to a command line appends `' ' + opt` and then the value. */
  lemma WordsSnocOption(x: string, ts: seq<string>, opt: string, value: string, lit: string)
    requires lit == " " + opt
    ensures x + Words(ts + [opt + value]) == x + Words(ts) + lit + value
  {
    WordsAppend(ts, [opt + value]);
    WordsOfOne(opt + value);
    assert x + (Words(ts) + (" " + (opt + value))) == x + Words(ts) + lit + value;
  }

  /** Appending a flag appends `' ' + flag`. */
  lemma WordsSnocFlag(x: string, ts: seq<string>, flag: string, lit: string)
    requires lit == " " + flag
    ensures x + Words(ts + [flag]) == x + Words(ts) + lit
  {
    WordsAppend(ts, [flag]);
    WordsOfOne(flag);
    assert x + (Words(ts) + lit) == x + Words(ts) + lit;
  }

  /** A flag written with a trailing space, `' ' + flag + ' '`, is the flag and an empty token. */
  lemma WordsSnocPadded(x: string, ts: seq<string>, flag: string, lit: string)
    requires lit == " " + flag + " "
    ensures x + Words(ts + [flag, ""]) == x + Words(ts) + lit
  {
    WordsSnocPair(x, ts, flag, "", lit);
    assert x + Words(ts) + lit + "" == x + Words(ts) + lit;
  }

  /** Tokenised at single spaces, a word and space-free space-led tokens, followed by
      anything that starts with a space, begin with that word and those tokens. */
  lemma {:induction false} SplitWordsHead(x: string, ts: seq<string>, rest: string)
    requires ' ' !in x && SpaceFree(ts)
    requires rest == [] || rest[0] == ' '
    ensures |Split(x + Words(ts) + rest, ' ')| > |ts|
    ensures Split(x + Words(ts) + rest, ' ')[..|ts| + 1] == [x] + ts
    decreases |ts|
  {
    if |ts| == 0 {
      assert x + Words(ts) + rest == x + rest;
      SplitPrefix(x, rest, ' ');
      if rest != [] {
        assert Split(rest, ' ') == [""] + Split(rest[1..], ' ');
      }
      assert x + "" == x;
    } else {
      SplitWordsHead(ts[0], ts[1..], rest);
      SplitWordsStep(x, ts, rest);
    }
  }

  /** One step of `SplitWordsHead`: a word in front of a split whose head is known. */
  lemma SplitWordsStep(x: string, ts: seq<string>, rest: string)
    requires ' ' !in x && |ts| > 0
    requires |Split(ts[0] + Words(ts[1..]) + rest, ' ')| > |ts| - 1
    requires Split(ts[0] + Words(ts[1..]) + rest, ' ')[..|ts|] == [ts[0]] + ts[1..]
    ensures |Split(x + Words(ts) + rest, ' ')| > |ts|
    ensures Split(x + Words(ts) + rest, ' ')[..|ts| + 1] == [x] + ts
  {
    var tail := ts[0] + Words(ts[1..]) + rest;
    var st := Split(tail, ' ');
    assert x + Words(ts) + rest == x + (" " + tail) by {
      assert Words(ts) == " " + ts[0] + Words(ts[1..]);
    }
    assert Split(" " + tail, ' ') == [""] + st by {
      assert (" " + tail)[1..] == tail;
    }
    assert Split(x + Words(ts) + rest, ' ') == [x] + st by {
      SplitPrefix(x, " " + tail, ' ');
      assert x + "" == x;
    }
    assert st[..|ts|] == ts by {
      assert [ts[0]] + ts[1..] == ts;
    }
    assert ([x] + st)[..|ts| + 1] == [x] + st[..|ts|];
  }

  /** The value given to an option written `opt<value>`: the rest of the first token that
      starts with `opt`, if there is one. */
  function OptionValue(ts: seq<string>, opt: string): Option<string>
    decreases |ts|
  {
    if |ts| == 0 then None
    else if opt <= ts[0] then Some(ts[0][|opt|..])
    else OptionValue(ts[1..], opt)
  }

  /** An option given after tokens that do not start with it has the value it was given,
      whatever follows. */
  lemma {:induction false} OptionValueAfter(pre: seq<string>, opt: string, value: string, post: seq<string>)
    requires forall i :: 0 <= i < |pre| ==> !(opt <= pre[i])
    ensures OptionValue(pre + [opt + value] + post, opt) == Some(value)
    decreases |pre|
  {
    var ts := pre + [opt + value] + post;
    if |pre| == 0 {
      assert ts[0] == opt + value;
      assert opt <= opt + value;
      assert (opt + value)[|opt|..] == value;
    } else {
      assert ts[0] == pre[0];
      assert ts[1..] == pre[1..] + [opt + value] + post;
      OptionValueAfter(pre[1..], opt, value, post);
    }
  }

  /** The value of a command's closing option written `flag <value>`: its last token, when
      the token before it is `flag`. */
  function ClosingValue(ts: seq<string>, flag: string): Option<string>
  {
    if |ts| >= 2 && ts[|ts| - 2] == flag then Some(ts[|ts| - 1]) else None
  }

  /** A token that differs from `opt` at some position does not start with it. */
  lemma NotOption(token: string, opt: string, i: nat)
    requires i < |token| && i < |opt| && token[i] != opt[i]
    ensures !(opt <= token)
  {
  }
}
