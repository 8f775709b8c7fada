/** The SGLang argument overlay of internal/controller/sglang_args.go.

    `MergeSGLangArgs` fills a slice and a position map in two loops.  The meaning of the result is
    stated without either: `IsOverlay` says which argument sits where, and only one list satisfies it. */
module SglangArgs {
  import opened Domain

  // ---------------------------------------------------------------- text

  /** The separators argFlag stops at. */
  predicate IsSeparator(c: char) {
    c == '=' || c == ' ' || c == '\t'
  }

  function UpToSeparator(s: string): string {
    if s == "" || IsSeparator(s[0]) then "" else [s[0]] + UpToSeparator(s[1..])
  }

  /** The flag one rendered argument sets; empty when it sets none. */
  function ArgFlag(argument: string): string {
    UpToSeparator(TrimSpace(argument))
  }

  lemma {:induction false} UpToSeparatorCuts(s: string)
    ensures var f := UpToSeparator(s);
            && f <= s
            && (forall i | 0 <= i < |f| :: !IsSeparator(f[i]))
            && (|f| < |s| ==> IsSeparator(s[|f|]))
  {
    if s != "" && !IsSeparator(s[0]) {
      UpToSeparatorCuts(s[1..]);
      assert s == [s[0]] + s[1..];
    }
  }

  lemma {:induction false} TrimRightKeepsHead(c: char, t: string)
    requires !IsSpace(c)
    ensures TrimRight([c] + t) == [c] + TrimRight(t)
    decreases |t|
  {
    if t != "" && IsSpace(t[|t| - 1]) {
      assert ([c] + t)[..|[c] + t| - 1] == [c] + t[..|t| - 1];
      TrimRightKeepsHead(c, t[..|t| - 1]);
    }
  }

  lemma {:induction false} TrimRightHead(t: string)
    ensures TrimRight(t) <= t
  {
    if t != "" && IsSpace(t[|t| - 1]) {
      TrimRightHead(t[..|t| - 1]);
    }
  }

  // ------------------------------------------------------- specification
  // Stated for any way `flagOf` of reading a flag off an argument; the program reads `ArgFlag`.

  lemma {:induction false} FlagSurvives(flag: string, tail: string)
    requires flag != "" && forall i | 0 <= i < |flag| :: !IsSpace(flag[i]) && !IsSeparator(flag[i])
    requires tail == "" || IsSeparator(tail[0])
    ensures UpToSeparator(TrimRight(flag + tail)) == flag
    decreases |flag|
  {
    assert flag + tail == [flag[0]] + (flag[1..] + tail);
    TrimRightKeepsHead(flag[0], flag[1..] + tail);
    var rest := TrimRight(flag[1..] + tail);
    if |flag| == 1 {
      assert flag[1..] + tail == tail;
      TrimRightHead(tail);
      assert UpToSeparator(rest) == "";
    } else {
      FlagSurvives(flag[1..], tail);
    }
    assert ([flag[0]] + rest)[1..] == rest;
    assert flag == [flag[0]] + flag[1..];
  }

  predicate Blank(s: string) { forall i | 0 <= i < |s| :: IsSpace(s[i]) }

  predicate FlagName(flag: string) { flag != "" && forall i | 0 <= i < |flag| :: !IsSpace(flag[i]) && !IsSeparator(flag[i]) }

  lemma FlagOfSpelling(pad: string, flag: string, tail: string)
    requires Blank(pad) && FlagName(flag) && (tail == "" || IsSeparator(tail[0]))
    ensures ArgFlag(pad + flag + tail) == flag
  {
    TrimLeftSkips(pad, flag + tail);
    assert pad + (flag + tail) == pad + flag + tail;
    FlagSurvives(flag, tail);
  }

  /** "--tp-size=8" and "--tp-size 8" set the same flag, whatever whitespace surrounds them:
      a flag name followed by an equals sign, a blank or a tab and anything at all is that flag. */
  lemma SameFlagInEverySpelling(pad: string, flag: string, separator: char, value: string)
    requires Blank(pad) && flag != "" && forall i | 0 <= i < |flag| :: !IsSpace(flag[i]) && flag[i] != '='
    requires separator in {'=', ' ', '\t'}
    ensures ArgFlag(pad + flag + [separator] + value) == flag
    ensures ArgFlag(pad + flag) == flag
  {
    assert FlagName(flag);
    FlagOfSpelling(pad, flag, [separator] + value);
    assert pad + flag + ([separator] + value) == pad + flag + [separator] + value;
    FlagOfSpelling(pad, flag, "");
    assert pad + flag + "" == pad + flag;
  }

  /** Some argument of the list sets `flag`. */
  ghost predicate Mentions(flagOf: string -> string, args: seq<string>, flag: string) {
    exists k :: 0 <= k < |args| && flagOf(args[k]) == flag
  }

  /** The position of the first argument that sets `flag`; the length of the list when none does. */
  function FirstMention(flagOf: string -> string, args: seq<string>, flag: string): (first: nat)
    ensures first <= |args|
    ensures first < |args| ==> flagOf(args[first]) == flag
    ensures forall k | 0 <= k < first :: flagOf(args[k]) != flag
  {
    if args == [] || flagOf(args[0]) == flag then 0
    else
      var rest := FirstMention(flagOf, args[1..], flag);
      assert forall k | 1 <= k < 1 + rest :: args[k] == args[1..][k - 1];
      1 + rest
  }

  /** `argument` is the last one in `args` with its flag. */
  ghost predicate IsLastSetting(flagOf: string -> string, args: seq<string>, argument: string) {
    exists at :: 0 <= at < |args| && args[at] == argument
      && forall k | at < k < |args| :: flagOf(args[k]) != flagOf(argument)
  }

  /** What the merged list is, said without an algorithm: it holds last settings only, ordered by
      first mention, and leaves no flag out. */
  ghost predicate IsOverlay(flagOf: string -> string, args: seq<string>, merged: seq<string>) {
    && (forall i | 0 <= i < |merged| :: flagOf(merged[i]) != "" && IsLastSetting(flagOf, args, merged[i]))
    && (forall i, j | 0 <= i < j < |merged| ::
          FirstMention(flagOf, args, flagOf(merged[i])) < FirstMention(flagOf, args, flagOf(merged[j])))
    && (forall f | f != "" && Mentions(flagOf, args, f) :: Mentions(flagOf, merged, f))
  }

  /** The distinct non-empty flags of a list, in the order they first occur. */
  function Flags(flagOf: string -> string, args: seq<string>): seq<string> {
    if args == [] then []
    else
      var earlier := Flags(flagOf, args[..|args| - 1]);
      var flag := flagOf(args[|args| - 1]);
      if flag == "" || flag in earlier then earlier else earlier + [flag]
  }

  /** The last argument that sets `flag`; empty when none does. */
  function LastSetting(flagOf: string -> string, args: seq<string>, flag: string): string {
    if args == [] then ""
    else if flagOf(args[|args| - 1]) == flag then args[|args| - 1]
    else LastSetting(flagOf, args[..|args| - 1], flag)
  }

  /** Each flag once, where it first stood, with the value it was last given. */
  function Overlay(flagOf: string -> string, args: seq<string>): (merged: seq<string>)
    ensures |merged| == |Flags(flagOf, args)|
  {
    var flags := Flags(flagOf, args);
    seq(|flags|, i requires 0 <= i < |flags| => LastSetting(flagOf, args, flags[i]))
  }

  // ------------------------------------------------ Overlay is the overlay

  lemma MentionsInFront(flagOf: string -> string, args: seq<string>, flag: string)
    requires args != []
    ensures Mentions(flagOf, args, flag)
       <==> Mentions(flagOf, args[..|args| - 1], flag) || flagOf(args[|args| - 1]) == flag
  {
    var n := |args| - 1;
    assert forall k | 0 <= k < n :: args[..n][k] == args[k];
    if flagOf(args[n]) != flag && Mentions(flagOf, args, flag) {
      var k :| 0 <= k < |args| && flagOf(args[k]) == flag;
      assert flagOf(args[..n][k]) == flag;
    }
  }

  lemma {:induction false} FlagsAreTheMentionedOnes(flagOf: string -> string, args: seq<string>, f: string)
    ensures f in Flags(flagOf, args) <==> f != "" && Mentions(flagOf, args, f)
  {
    if args != [] {
      var n := |args| - 1;
      FlagsAreTheMentionedOnes(flagOf, args[..n], f);
      MentionsInFront(flagOf, args, f);
    }
  }

  lemma {:induction false} LastSettingIsLast(flagOf: string -> string, args: seq<string>, flag: string)
    requires Mentions(flagOf, args, flag)
    ensures flagOf(LastSetting(flagOf, args, flag)) == flag
    ensures IsLastSetting(flagOf, args, LastSetting(flagOf, args, flag))
  {
    var n := |args| - 1;
    if flagOf(args[n]) == flag {
      assert args[n] == LastSetting(flagOf, args, flag);
    } else {
      MentionsInFront(flagOf, args, flag);
      LastSettingIsLast(flagOf, args[..n], flag);
      var argument := LastSetting(flagOf, args[..n], flag);
      var at :| 0 <= at < n && args[..n][at] == argument
        && forall k | at < k < n :: flagOf(args[..n][k]) != flagOf(argument);
      assert forall k | at < k < n :: args[k] == args[..n][k];
      assert args[at] == argument;
    }
  }

  lemma FirstMentionOfPrefix(flagOf: string -> string, args: seq<string>, flag: string)
    requires args != [] && Mentions(flagOf, args[..|args| - 1], flag)
    ensures FirstMention(flagOf, args, flag) == FirstMention(flagOf, args[..|args| - 1], flag) < |args| - 1
  {
    var n := |args| - 1;
    var k :| 0 <= k < n && flagOf(args[..n][k]) == flag;
    assert flagOf(args[k]) == flag;
    var first, before := FirstMention(flagOf, args, flag), FirstMention(flagOf, args[..n], flag);
    assert args[..n][first] == args[first] && args[..n][before] == args[before];
  }

  lemma NotBefore(flagOf: string -> string, args: seq<string>, flag: string, n: nat)
    requires n <= |args| && !Mentions(flagOf, args[..n], flag)
    ensures n <= FirstMention(flagOf, args, flag)
  {
    forall k | 0 <= k < n ensures flagOf(args[k]) != flag {
      assert args[..n][k] == args[k];
    }
  }

  /** Flags are listed by the position of their first mention. */
  lemma {:induction false} FlagsInOrder(flagOf: string -> string, args: seq<string>, i: nat, j: nat)
    requires i < j < |Flags(flagOf, args)|
    ensures FirstMention(flagOf, args, Flags(flagOf, args)[i]) < FirstMention(flagOf, args, Flags(flagOf, args)[j])
  {
    var n := |args| - 1;
    var earlier := Flags(flagOf, args[..n]);
    FlagsAreTheMentionedOnes(flagOf, args[..n], earlier[i]);
    FirstMentionOfPrefix(flagOf, args, earlier[i]);
    if j < |earlier| {
      FlagsInOrder(flagOf, args[..n], i, j);
      FlagsAreTheMentionedOnes(flagOf, args[..n], earlier[j]);
      FirstMentionOfPrefix(flagOf, args, earlier[j]);
    } else {
      var g := Flags(flagOf, args)[j];
      FlagsAreTheMentionedOnes(flagOf, args[..n], g);
      assert g == flagOf(args[n]);
      NotBefore(flagOf, args, g, n);
    }
  }

  lemma OverlayAt(flagOf: string -> string, args: seq<string>, i: nat)
    requires i < |Overlay(flagOf, args)|
    ensures var m := Overlay(flagOf, args)[i];
            m == LastSetting(flagOf, args, Flags(flagOf, args)[i])
            && flagOf(m) == Flags(flagOf, args)[i] != "" && IsLastSetting(flagOf, args, m)
  {
    var f := Flags(flagOf, args)[i];
    FlagsAreTheMentionedOnes(flagOf, args, f);
    LastSettingIsLast(flagOf, args, f);
  }

  lemma OverlayIsOverlay(flagOf: string -> string, args: seq<string>)
    ensures IsOverlay(flagOf, args, Overlay(flagOf, args))
  {
    var merged := Overlay(flagOf, args);
    forall i | 0 <= i < |merged| ensures flagOf(merged[i]) != "" && IsLastSetting(flagOf, args, merged[i]) {
      OverlayAt(flagOf, args, i);
    }
    forall i, j | 0 <= i < j < |merged|
      ensures FirstMention(flagOf, args, flagOf(merged[i])) < FirstMention(flagOf, args, flagOf(merged[j]))
    {
      OverlayAt(flagOf, args, i);
      OverlayAt(flagOf, args, j);
      FlagsInOrder(flagOf, args, i, j);
    }
    forall f | f != "" && Mentions(flagOf, args, f) ensures Mentions(flagOf, merged, f) {
      FlagsAreTheMentionedOnes(flagOf, args, f);
      var i :| 0 <= i < |merged| && Flags(flagOf, args)[i] == f;
      OverlayAt(flagOf, args, i);
    }
  }

  // -------------------------------------------- and there is no other one

  lemma LastSettingMentioned(flagOf: string -> string, args: seq<string>, a: string)
    requires IsLastSetting(flagOf, args, a)
    ensures Mentions(flagOf, args, flagOf(a))
    ensures flagOf(args[FirstMention(flagOf, args, flagOf(a))]) == flagOf(a)
  {
    var at :| 0 <= at < |args| && args[at] == a && forall k | at < k < |args| :: flagOf(args[k]) != flagOf(a);
  }

  lemma LastSettingUnique(flagOf: string -> string, args: seq<string>, a: string, b: string)
    requires IsLastSetting(flagOf, args, a) && IsLastSetting(flagOf, args, b)
    requires flagOf(a) == flagOf(b)
    ensures a == b
  {
    var at :| 0 <= at < |args| && args[at] == a && forall k | at < k < |args| :: flagOf(args[k]) != flagOf(a);
    var bt :| 0 <= bt < |args| && args[bt] == b && forall k | bt < k < |args| :: flagOf(args[k]) != flagOf(b);
    assert at == bt;
  }

  lemma Ordered(flagOf: string -> string, args: seq<string>, m: seq<string>, i: nat, j: nat)
    requires IsOverlay(flagOf, args, m) && i < j < |m|
    ensures FirstMention(flagOf, args, flagOf(m[i])) < FirstMention(flagOf, args, flagOf(m[j]))
  {
  }

  lemma NoEarlierTwin(flagOf: string -> string, args: seq<string>, m: seq<string>, n: seq<string>, i: nat, j: nat)
    requires IsOverlay(flagOf, args, n)
    requires i < |n| && i <= |m| && m[..i] == n[..i]
    requires j < |m| && flagOf(m[j]) == flagOf(n[i])
    ensures i <= j
  {
    forall k | 0 <= k < i
      ensures FirstMention(flagOf, args, flagOf(m[k])) < FirstMention(flagOf, args, flagOf(n[i]))
    {
      Ordered(flagOf, args, n, k, i);
      assert m[..i][k] == n[..i][k];
    }
  }

  /** When `n` agrees with `m` on its first `i` entries and goes on, so does `m`, no later. */
  lemma NextNotEarlier(flagOf: string -> string, args: seq<string>, m: seq<string>, n: seq<string>, i: nat)
    requires IsOverlay(flagOf, args, m) && IsOverlay(flagOf, args, n)
    requires i <= |m| && i < |n| && m[..i] == n[..i]
    ensures i < |m|
    ensures FirstMention(flagOf, args, flagOf(m[i])) <= FirstMention(flagOf, args, flagOf(n[i]))
  {
    LastSettingMentioned(flagOf, args, n[i]);
    var j :| 0 <= j < |m| && flagOf(m[j]) == flagOf(n[i]);
    NoEarlierTwin(flagOf, args, m, n, i, j);
    if i < j {
      Ordered(flagOf, args, m, i, j);
    }
  }

  lemma {:induction false} OverlaysAgree(flagOf: string -> string, args: seq<string>, m: seq<string>, n: seq<string>, upTo: nat)
    requires IsOverlay(flagOf, args, m) && IsOverlay(flagOf, args, n)
    requires upTo <= |n|
    ensures upTo <= |m| && m[..upTo] == n[..upTo]
  {
    if upTo > 0 {
      var i := upTo - 1;
      OverlaysAgree(flagOf, args, m, n, i);
      NextNotEarlier(flagOf, args, m, n, i);
      NextNotEarlier(flagOf, args, n, m, i);
      var first := FirstMention(flagOf, args, flagOf(m[i]));
      LastSettingMentioned(flagOf, args, m[i]);
      LastSettingMentioned(flagOf, args, n[i]);
      LastSettingUnique(flagOf, args, m[i], n[i]);
      assert m[..upTo] == m[..i] + [m[i]] && n[..upTo] == n[..i] + [n[i]];
    }
  }

  lemma OverlayUnique(flagOf: string -> string, args: seq<string>, merged: seq<string>)
    requires IsOverlay(flagOf, args, merged)
    ensures merged == Overlay(flagOf, args)
  {
    var other := Overlay(flagOf, args);
    OverlayIsOverlay(flagOf, args);
    OverlaysAgree(flagOf, args, merged, other, |other|);
    OverlaysAgree(flagOf, args, other, merged, |merged|);
  }

  // ------------------------------------------------- layers of overriding

  lemma {:induction false} FlagsAfterSameFlags(flagOf: string -> string, a: seq<string>, b: seq<string>, tail: seq<string>)
    requires Flags(flagOf, a) == Flags(flagOf, b)
    ensures Flags(flagOf, a + tail) == Flags(flagOf, b + tail)
  {
    if tail == [] {
      assert a + tail == a && b + tail == b;
    } else {
      var n := |tail| - 1;
      assert (a + tail)[..|a + tail| - 1] == a + tail[..n] && (b + tail)[..|b + tail| - 1] == b + tail[..n];
      FlagsAfterSameFlags(flagOf, a, b, tail[..n]);
    }
  }

  lemma {:induction false} LastSettingOfConcat(flagOf: string -> string, a: seq<string>, b: seq<string>, flag: string)
    ensures LastSetting(flagOf, a + b, flag)
         == if Mentions(flagOf, b, flag) then LastSetting(flagOf, b, flag) else LastSetting(flagOf, a, flag)
  {
    if b == [] {
      assert a + b == a;
    } else {
      var n := |b| - 1;
      assert (a + b)[..|a + b| - 1] == a + b[..n];
      if flagOf(b[n]) != flag {
        LastSettingOfConcat(flagOf, a, b[..n], flag);
        MentionsInFront(flagOf, b, flag);
      }
    }
  }

  lemma {:induction false} FlagsOfOverlayPrefix(flagOf: string -> string, args: seq<string>, n: nat)
    requires n <= |Flags(flagOf, args)|
    ensures Flags(flagOf, Overlay(flagOf, args)[..n]) == Flags(flagOf, args)[..n]
  {
    if n > 0 {
      var m, flags := Overlay(flagOf, args), Flags(flagOf, args);
      FlagsOfOverlayPrefix(flagOf, args, n - 1);
      assert m[..n][..n - 1] == m[..n - 1];
      OverlayAt(flagOf, args, n - 1);
      forall k | 0 <= k < n - 1 ensures flags[k] != flags[n - 1] {
        FlagsInOrder(flagOf, args, k, n - 1);
      }
      assert flags[..n] == flags[..n - 1] + [flags[n - 1]];
    }
  }

  /** A merged list mentions the same flags in the same order. */
  lemma OverlayFlags(flagOf: string -> string, args: seq<string>)
    ensures Flags(flagOf, Overlay(flagOf, args)) == Flags(flagOf, args)
  {
    FlagsOfOverlayPrefix(flagOf, args, |Flags(flagOf, args)|);
    assert Overlay(flagOf, args)[..|Flags(flagOf, args)|] == Overlay(flagOf, args);
  }

  lemma {:induction false} NeverSet(flagOf: string -> string, args: seq<string>, flag: string)
    requires !Mentions(flagOf, args, flag)
    ensures LastSetting(flagOf, args, flag) == ""
  {
    if args != [] {
      var n := |args| - 1;
      MentionsInFront(flagOf, args, flag);
      NeverSet(flagOf, args[..n], flag);
    }
  }

  /** Override wins per flag and nothing else changes: every flag keeps its last setting. */
  lemma OverlaySettings(flagOf: string -> string, args: seq<string>, flag: string)
    requires flag != ""
    ensures LastSetting(flagOf, Overlay(flagOf, args), flag) == LastSetting(flagOf, args, flag)
  {
    var m := Overlay(flagOf, args);
    OverlayFlags(flagOf, args);
    FlagsAreTheMentionedOnes(flagOf, args, flag);
    FlagsAreTheMentionedOnes(flagOf, m, flag);
    if Mentions(flagOf, args, flag) {
      LastSettingIsLast(flagOf, m, flag);
      var at :| 0 <= at < |m| && m[at] == LastSetting(flagOf, m, flag);
      OverlayAt(flagOf, args, at);
    } else {
      NeverSet(flagOf, args, flag);
      NeverSet(flagOf, m, flag);
    }
  }

  /** Merging once and again with more arguments is one merge of everything: a start request's three
      layers (shared, role, machine) behave as one list in which the narrowest setting stands last. */
  lemma MergingTwiceIsMergingOnce(flagOf: string -> string, a: seq<string>, b: seq<string>)
    ensures Overlay(flagOf, Overlay(flagOf, a) + b) == Overlay(flagOf, a + b)
  {
    var m := Overlay(flagOf, a);
    OverlayFlags(flagOf, a);
    FlagsAfterSameFlags(flagOf, m, a, b);
    var flags := Flags(flagOf, a + b);
    forall i | 0 <= i < |flags|
      ensures LastSetting(flagOf, m + b, flags[i]) == LastSetting(flagOf, a + b, flags[i])
    {
      LastSettingOfConcat(flagOf, m, b, flags[i]);
      LastSettingOfConcat(flagOf, a, b, flags[i]);
      FlagsAreTheMentionedOnes(flagOf, a + b, flags[i]);
      OverlaySettings(flagOf, a, flags[i]);
    }
    assert Overlay(flagOf, m + b) == Overlay(flagOf, a + b);
  }

  // -------------------------------------------------------- the algorithm

  /** The index map and the slice describe the overlay of what has been applied so far. */
  ghost predicate Agrees(done: seq<string>, merged: seq<string>, position: map<string, int>) {
    var flags := Flags(ArgFlag, done);
    && merged == Overlay(ArgFlag, done)
    && (forall f :: f in position <==> f in flags)
    && (forall f | f in position :: 0 <= position[f] < |flags| && flags[position[f]] == f)
  }

  /** Appending one argument changes the overlay in one of three ways, by its flag. */
  lemma OverlaySnoc(flagOf: string -> string, done: seq<string>, argument: string)
    ensures var flags, flag := Flags(flagOf, done), flagOf(argument);
            var more := done + [argument];
            && (flag == "" || flag in flags ==> Flags(flagOf, more) == flags)
            && (flag != "" && flag !in flags ==> Flags(flagOf, more) == flags + [flag])
    ensures flagOf(argument) == "" ==> Overlay(flagOf, done + [argument]) == Overlay(flagOf, done)
    ensures flagOf(argument) != "" && flagOf(argument) !in Flags(flagOf, done) ==>
              Overlay(flagOf, done + [argument]) == Overlay(flagOf, done) + [argument]
    ensures forall i | 0 <= i < |Flags(flagOf, done)| ::
              Overlay(flagOf, done + [argument])[i]
                == if Flags(flagOf, done)[i] == flagOf(argument) then argument else Overlay(flagOf, done)[i]
  {
    var more := done + [argument];
    assert more[..|more| - 1] == done;
    var flags, flag := Flags(flagOf, done), flagOf(argument);
    forall i | 0 <= i < |flags|
      ensures flags[i] != ""
      ensures Overlay(flagOf, more)[i] == if flags[i] == flag then argument else Overlay(flagOf, done)[i]
    {
      FlagsAreTheMentionedOnes(flagOf, done, flags[i]);
      assert LastSetting(flagOf, more, flags[i]) == if flag == flags[i] then argument else LastSetting(flagOf, done, flags[i]);
    }
  }

  lemma FlagsOnce(flagOf: string -> string, args: seq<string>, i: nat, j: nat)
    requires i < |Flags(flagOf, args)| && j < |Flags(flagOf, args)|
    requires Flags(flagOf, args)[i] == Flags(flagOf, args)[j]
    ensures i == j
  {
    if i < j {
      FlagsInOrder(flagOf, args, i, j);
    } else if j < i {
      FlagsInOrder(flagOf, args, j, i);
    }
  }

  method ApplyArgument(argument: string, merged: seq<string>, position: map<string, int>, ghost done: seq<string>)
    returns (merged': seq<string>, position': map<string, int>)
    requires Agrees(done, merged, position)
    ensures Agrees(done + [argument], merged', position')
  {
    merged', position' := merged, position;
    var flag := ArgFlag(argument);
    OverlaySnoc(ArgFlag, done, argument);
    if flag == "" {
      return;
    }
    if flag in position {
      var at := position[flag];
      merged' := merged[at := argument];
      ghost var next := Overlay(ArgFlag, done + [argument]);
      forall i | 0 <= i < |merged| ensures merged'[i] == next[i] {
        if Flags(ArgFlag, done)[i] == flag {
          FlagsOnce(ArgFlag, done, i, at);
        }
      }
      assert merged' == next;
      return;
    }
    position' := position[flag := |merged|];
    merged' := merged + [argument];
  }

  /** Overlays the role's or machine's arguments on the shared list. */
  method MergeSGLangArgs(base: seq<string>, override: seq<string>) returns (merged: seq<string>)
    ensures merged == Overlay(ArgFlag, base + override)
    ensures IsOverlay(ArgFlag, base + override, merged)
  {
    merged := [];
    var position: map<string, int> := map[];
    for i := 0 to |base|
      invariant Agrees(base[..i], merged, position)
    {
      assert base[..i + 1] == base[..i] + [base[i]];
      merged, position := ApplyArgument(base[i], merged, position, base[..i]);
    }
    assert base[..|base|] == base == base + override[..0];
    for i := 0 to |override|
      invariant Agrees(base + override[..i], merged, position)
    {
      assert base + override[..i + 1] == base + override[..i] + [override[i]];
      merged, position := ApplyArgument(override[i], merged, position, base + override[..i]);
    }
    assert override[..|override|] == override;
    OverlayIsOverlay(ArgFlag, base + override);
  }

  /** The three layers of a start request, merged pairwise as the controller does. */
  method StartArgs(shared: seq<string>, role: seq<string>, machine: seq<string>) returns (args: seq<string>)
    ensures args == Overlay(ArgFlag, shared + role + machine)
    ensures IsOverlay(ArgFlag, shared + role + machine, args)
  {
    var inner := MergeSGLangArgs(shared, role);
    args := MergeSGLangArgs(inner, machine);
    MergingTwiceIsMergingOnce(ArgFlag, shared + role, machine);
    OverlayIsOverlay(ArgFlag, shared + role + machine);
  }
}
