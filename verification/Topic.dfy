/** The forum topic name rule. Strings are sequences of runes (Unicode scalar values). */
module Topic {

  const MAX_RUNES: nat := 128

  /** Unicode White_Space. */
  predicate IsSpace(c: char) {
    var n := c as int;
    9 <= n <= 13 || n in {0x20, 0x85, 0xA0, 0x1680, 0x2028, 0x2029, 0x202F, 0x205F, 0x3000} || 0x2000 <= n <= 0x200A
  }

  /** Categories Cc and Cf. */
  predicate IsControl(c: char) {
    var n := c as int;
    || n <= 0x1F || 0x7F <= n <= 0x9F
    || n in {0xAD, 0x61C, 0x6DD, 0x70F, 0x890, 0x891, 0x8E2, 0x180E, 0xFEFF, 0x110BD, 0x110CD, 0xE0001}
    || 0x600 <= n <= 0x605 || 0x200B <= n <= 0x200F || 0x202A <= n <= 0x202E || 0x2060 <= n <= 0x2064
    || 0x2066 <= n <= 0x206F || 0xFFF9 <= n <= 0xFFFB || 0x13430 <= n <= 0x1343F || 0x1BCA0 <= n <= 0x1BCA3
    || 0x1D173 <= n <= 0x1D17A || 0xE0020 <= n <= 0xE007F
  }

  // ---------- The rule, in terms of words ----------

  function Butlast<T>(s: seq<T>): seq<T>
    requires s != []
  {
    s[..|s| - 1]
  }

  function Last<T>(s: seq<T>): T
    requires s != []
  {
    s[|s| - 1]
  }

  /** The maximal runs of non-space runes. */
  function Words(s: string): (ws: seq<string>)
    ensures s != "" && !IsSpace(Last(s)) ==> ws != []
  {
    if s == "" then []
    else
      var ws, c := Words(Butlast(s)), Last(s);
      if IsSpace(c) then ws
      else if |s| == 1 || IsSpace(s[|s| - 2]) then ws + [[c]]
      else Butlast(ws) + [Last(ws) + [c]]
  }

  function Joined(ws: seq<string>): string {
    if ws == [] then ""
    else if |ws| == 1 then ws[0]
    else Joined(Butlast(ws)) + " " + Last(ws)
  }

  /** `s` without its control and format runes. */
  function Kept(s: string): string {
    if s == "" then ""
    else Kept(Butlast(s)) + if IsControl(Last(s)) then "" else [Last(s)]
  }

  function Clamp(s: string): string {
    if |s| > MAX_RUNES then s[..MAX_RUNES] else s
  }

  function Sanitized(s: string): string {
    Clamp(Kept(Joined(Words(s))))
  }

  /** Trimmed, with single ASCII spaces between the words. */
  predicate Tidy(s: string) {
    && (s != "" ==> !IsSpace(s[0]) && !IsSpace(Last(s)))
    && (forall i :: 0 <= i < |s| && IsSpace(s[i]) ==> s[i] == ' ')
    && (forall i :: 0 <= i < |s| - 1 && IsSpace(s[i]) ==> !IsSpace(s[i + 1]))
  }

  predicate ControlFree(s: string) {
    forall c :: c in s ==> !IsControl(c)
  }

  // ---------- The algorithm ----------

  /** The first loop: the one tidy string that has the words of `s`. */
  method Collapse(s: string) returns (b: string)
    ensures Tidy(b) && Words(b) == Words(s) && b == Joined(Words(s))
  {
    hide *;
    b := [];
    var pendingSpace := false;
    EmptyIsTidy();
    for i := 0 to |s|
      invariant Tidy(b) && Words(b) == Words(s[..i])
      invariant pendingSpace == (i > 0 && IsSpace(s[i - 1]))
    {
      var r := s[i];
      assert s[..i + 1] == s[..i] + [r];
      WordsNext(s[..i], r);
      if IsSpace(r) {
        pendingSpace := true;
        continue;
      }
      SameStart(b, s[..i]);
      AppendWord(b, r);
      if pendingSpace && |b| > 0 {
        b := b + [' '];
      }
      pendingSpace := false;
      b := b + [r];
    }
    assert s[..|s|] == s;
    TidyIsJoined(b);
  }

  lemma EmptyIsTidy()
    ensures Tidy("") && Words("") == []
  {
  }

  lemma WordsNext(s: string, c: char)
    ensures Words(s + [c]) ==
            if IsSpace(c) then Words(s)
            else if s == "" || IsSpace(s[|s| - 1]) then Words(s) + [[c]]
            else Words(s)[..|Words(s)| - 1] + [Words(s)[|Words(s)| - 1] + [c]]
  {
    hide IsSpace;
    assert Butlast(s + [c]) == s;
  }

  /** A tidy string ends in a word; if it is empty, what it collapses is blank. */
  lemma SameStart(b: string, s: string)
    requires Tidy(b) && Words(b) == Words(s)
    ensures b != "" ==> !IsSpace(b[|b| - 1])
    ensures b == "" && s != "" ==> IsSpace(s[|s| - 1])
    ensures b != "" ==> s != ""
  {
    hide IsSpace;
  }

  /** Appending a rune to a tidy string, with or without a space in between. */
  lemma AppendWord(b: string, c: char)
    requires Tidy(b) && !IsSpace(c)
    ensures Tidy(b + [c])
    ensures b != "" ==> Tidy(b + [' '] + [c]) && Words(b + [' '] + [c]) == Words(b) + [[c]]
    ensures Words(b + [c]) == if b == "" then [[c]] else Words(b)[..|Words(b)| - 1] + [Words(b)[|Words(b)| - 1] + [c]]
  {
    hide IsSpace;
    hide Words;
    hide Tidy;
    SpaceIsNoControl();
    TidyEnds(b, c);
    WordsNext(b, c);
    WordsNext(b, ' ');
    WordsNext(b + [' '], c);
    EmptyIsTidy();
    if b != "" { TidyPush(b, [c]); }
  }

  lemma TidyEnds(b: string, c: char)
    requires Tidy(b) && !IsSpace(c)
    ensures Tidy(b + [c]) && SpaceFree([c])
    ensures b != "" ==> !IsSpace(b[|b| - 1])
  {
    hide IsSpace;
  }

  method SanitizeTopicName(s: string) returns (name: string)
    ensures name == Sanitized(s)
  {
    var b := Collapse(s);
    var out := [];
    for i := 0 to |b|
      invariant out == Kept(b[..i])
    {
      assert Butlast(b[..i + 1]) == b[..i];
      if IsControl(b[i]) {
        continue;
      }
      out := out + [b[i]];
    }
    assert b[..|b|] == b;
    if |out| > MAX_RUNES {
      out := out[..MAX_RUNES];
    }
    name := out;
  }

  // ---------- Collapsing ----------

  lemma JoinedExtend(ws: seq<string>, c: char)
    requires ws != []
    ensures Joined(Butlast(ws) + [Last(ws) + [c]]) == Joined(ws) + [c]
  {
    var ws' := Butlast(ws) + [Last(ws) + [c]];
    assert Butlast(ws') == Butlast(ws);
  }

  lemma JoinedPush(ws: seq<string>, w: string)
    ensures Joined(ws + [w]) == if ws == [] then w else Joined(ws) + " " + w
  {
    assert Butlast(ws + [w]) == ws;
  }

  lemma {:induction false} TidyIsJoined(s: string)
    requires Tidy(s)
    ensures Joined(Words(s)) == s
  {
    hide IsSpace;
    if |s| > 1 {
      var p, c := Butlast(s), Last(s);
      if IsSpace(Last(p)) {
        var q := Butlast(p);
        assert s == q + " " + [c];
        assert Words(s) == Words(q) + [[c]] && Words(q) != [];
        TidyIsJoined(q);
        JoinedPush(Words(q), [c]);
      } else {
        assert s == p + [c];
        TidyIsJoined(p);
        JoinedExtend(Words(p), c);
      }
    }
  }

  predicate IsWord(w: string) {
    w != "" && SpaceFree(w)
  }

  predicate SpaceFree(w: string) {
    forall c :: c in w ==> !IsSpace(c)
  }

  lemma {:induction false} WordsAreWords(s: string)
    ensures forall w :: w in Words(s) ==> IsWord(w)
  {
    hide IsSpace;
    if s != "" {
      var ws := Words(Butlast(s));
      WordsAreWords(Butlast(s));
      assert ws != [] ==> Last(ws) in ws;
    }
  }

  lemma {:induction false} JoinedIsTidy(ws: seq<string>)
    requires forall w :: w in ws ==> IsWord(w)
    ensures Tidy(Joined(ws)) && (ws != [] ==> Joined(ws) != "")
  {
    hide IsSpace;
    hide IsControl;
    if |ws| > 1 {
      JoinedIsTidy(Butlast(ws));
      assert IsWord(Last(ws));
    } else if ws != [] {
      assert IsWord(ws[0]);
    }
  }

  /** Collapsing never lengthens, and invents no rune but the ASCII space. */
  lemma {:induction false} JoinedIsShorter(s: string)
    ensures |Joined(Words(s))| + (if s != "" && Words(s) != [] && IsSpace(Last(s)) then 1 else 0) <= |s|
    ensures forall c :: c in Joined(Words(s)) ==> c == ' ' || c in s
  {
    hide IsSpace;
    hide IsControl;
    if s != "" {
      var p, c := Butlast(s), Last(s);
      JoinedIsShorter(p);
      if !IsSpace(c) {
        if |s| == 1 || IsSpace(s[|s| - 2]) { JoinedPush(Words(p), [c]); } else { JoinedExtend(Words(p), c); }
      }
    }
  }

  lemma {:induction false} KeptChars(s: string)
    ensures ControlFree(Kept(s)) && forall c :: c in Kept(s) ==> c in s
    ensures ControlFree(s) ==> Kept(s) == s
  {
    hide IsControl;
    if s != "" {
      var p, c := Butlast(s), Last(s);
      assert s == p + [c];
      KeptChars(p);
      CharsPush(Kept(p), p, c);
    }
  }

  lemma CharsPush(k: string, p: string, c: char)
    requires ControlFree(k) && forall x :: x in k ==> x in p
    ensures var k' := k + if IsControl(c) then "" else [c];
            ControlFree(k') && forall x :: x in k' ==> x in p + [c]
    ensures ControlFree(p + [c]) ==> ControlFree(p) && !IsControl(c)
  {
    hide IsControl;
    if ControlFree(p + [c]) {
      assert c in p + [c];
      assert forall x :: x in p ==> x in p + [c];
    }
  }

  lemma SpaceIsNoControl()
    ensures IsSpace(' ') && !IsControl(' ')
  {
  }

  // ---------- What a name looks like ----------

  /** At most 128 runes, none of them control or format, and no whitespace but the ASCII space. */
  lemma NameIsClean(s: string)
    ensures var t := Sanitized(s);
            |t| <= 128 && ControlFree(t) && forall c :: c in t && IsSpace(c) ==> c == ' '
  {
    hide IsSpace;
    hide IsControl;
    WordsAreWords(s);
    JoinedSpaces(Words(s));
    KeptChars(Joined(Words(s)));
  }

  /** The runes that are neither whitespace nor control, in order. */
  function Inked(s: string): string {
    if s == "" then ""
    else Inked(Butlast(s)) + if IsControl(Last(s)) || IsSpace(Last(s)) then "" else [Last(s)]
  }

  lemma {:induction false} InkedAppend(a: string, b: string)
    ensures Inked(a + b) == Inked(a) + Inked(b)
  {
    hide IsSpace;
    hide IsControl;
    if b == "" {
      assert a + b == a;
    } else {
      InkedAppend(a, Butlast(b));
      assert Butlast(a + b) == a + Butlast(b);
    }
  }

  lemma {:induction false} InkedJoined(s: string)
    ensures Inked(Joined(Words(s))) == Inked(s)
  {
    hide IsSpace;
    hide IsControl;
    if s != "" {
      var p, c := Butlast(s), Last(s);
      InkedJoined(p);
      InkedAppend(p, [c]);
      assert s == p + [c];
      WordsNext(p, c);
      if !IsSpace(c) { InkedNext(Words(p), c); }
    }
  }

  lemma InkedNext(ws: seq<string>, c: char)
    ensures Inked(Joined(ws + [[c]])) == Inked(Joined(ws)) + Inked([c])
    ensures ws != [] ==> Inked(Joined(Butlast(ws) + [Last(ws) + [c]])) == Inked(Joined(ws)) + Inked([c])
  {
    hide IsSpace;
    hide IsControl;
    hide Joined;
    SpaceIsNoControl();
    EmptyIsTidy();
    JoinedPush(ws, [c]);
    InkedAppend(Joined(ws), " ");
    InkedAppend(Joined(ws) + " ", [c]);
    if ws != [] {
      JoinedExtend(ws, c);
      InkedAppend(Joined(ws), [c]);
    } else {
      assert Inked(Joined([])) == "" by { JoinedNone(); }
    }
  }

  lemma JoinedNone()
    ensures Joined([]) == ""
  {
  }

  lemma {:induction false} InkedKept(s: string)
    ensures Inked(Kept(s)) == Inked(s)
  {
    hide IsSpace;
    hide IsControl;
    if s != "" {
      InkedKept(Butlast(s));
      InkedAppend(Kept(Butlast(s)), if IsControl(Last(s)) then "" else [Last(s)]);
    }
  }

  /** Nothing is reordered or invented: the visible runes of the name are the first visible runes of
      the input, and all of them unless the name was cut. */
  lemma NameIsPrefix(s: string)
    ensures Inked(Sanitized(s)) <= Inked(s)
    ensures |Kept(Joined(Words(s)))| <= 128 ==> Inked(Sanitized(s)) == Inked(s)
  {
    hide IsSpace;
    hide IsControl;
    var t := Kept(Joined(Words(s)));
    InkedJoined(s);
    InkedKept(Joined(Words(s)));
    if |t| > MAX_RUNES {
      InkedAppend(t[..MAX_RUNES], t[MAX_RUNES..]);
      assert t[..MAX_RUNES] + t[MAX_RUNES..] == t;
    }
  }

  // ---------- Sanitising again ----------

  /** The names that sanitising leaves alone. */
  predicate Settled(s: string) {
    Tidy(s) && ControlFree(s) && |s| <= MAX_RUNES
  }

  /** Sanitising a name is collapsing it: nothing is left to drop or cut. */
  lemma SecondPass(s: string)
    requires ControlFree(s) && |s| <= MAX_RUNES
    ensures Sanitized(s) == Joined(Words(s)) && Settled(Joined(Words(s)))
  {
    CollapsingSettles(s);
    hide Words;
    hide Joined;
    KeptChars(Joined(Words(s)));
  }

  lemma CollapsingSettles(s: string)
    requires ControlFree(s) && |s| <= MAX_RUNES
    ensures Settled(Joined(Words(s)))
  {
    hide IsSpace;
    hide IsControl;
    SpaceIsNoControl();
    JoinedIsShorter(s);
    WordsAreWords(s);
    JoinedIsTidy(Words(s));
  }

  /** Sanitising changes nothing exactly when the name is tidy, short and free of control runes. */
  lemma FixedIff(s: string)
    ensures Sanitized(s) == s <==> Settled(s)
  {
    NameIsClean(s);
    if Sanitized(s) == s || Settled(s) { SecondPass(s); }
    if Settled(s) { TidyIsJoined(s); }
  }

  /** Two passes settle every name: it is trimmed and single-spaced, and further passes change nothing. */
  lemma TwoPassesSettle(s: string)
    ensures Settled(Sanitized(Sanitized(s)))
    ensures Sanitized(Sanitized(Sanitized(s))) == Sanitized(Sanitized(s))
  {
    NameIsClean(s);
    SecondPass(Sanitized(s));
    FixedIff(Sanitized(Sanitized(s)));
  }

  /** One pass need not settle: dropping a control rune can leave a space at the end. */
  lemma OnePassMayNotSettle()
    ensures Sanitized("a \U{0001}") == "a " && Sanitized("a ") == "a"
  {
    hide IsSpace;
    hide IsControl;
    hide Words;
    hide Joined;
    hide Kept;
    SampleRunes();
    EmptyIsTidy();
    assert "" + ['a'] == "a" && "a" + [' '] == "a " && "a " + ['\U{0001}'] == "a \U{0001}";
    WordsNext("", 'a');
    WordsNext("a", ' ');
    WordsNext("a ", '\U{0001}');
    JoinedPush([], "a");
    JoinedPush(["a"], "\U{0001}");
    assert "a" + " " + "\U{0001}" == "a \U{0001}" && [] + ["a"] == ["a"];
    KeptAppend("a ", "\U{0001}");
    assert "a " + "\U{0001}" == "a \U{0001}";
  }

  lemma SampleRunes()
    ensures IsSpace(' ') && !IsSpace('a') && !IsSpace('\U{0001}')
    ensures Kept("a") == "a" && Kept("a ") == "a " && Kept("\U{0001}") == ""
  {
    SampleClasses();
    hide IsSpace;
    hide IsControl;
    KeptAppend("a", " ");
    assert "a" + " " == "a ";
    assert Kept("") == "" && "" + ['a'] == "a" && "" + [' '] == " ";
    assert Kept("a") == "a" && Kept(" ") == " ";
  }

  lemma SpaceIsKept()
    ensures Kept(" ") == " "
  {
    hide IsControl;
    SampleClasses();
    assert Kept("") == "" && "" + [' '] == " ";
  }

  lemma SampleClasses()
    ensures IsSpace(' ') && !IsSpace('a') && !IsSpace('\U{0001}')
    ensures !IsControl(' ') && !IsControl('a') && IsControl('\U{0001}')
  {
  }

  // ---------- When one pass is enough ----------

  /** Where word `j` starts in the joined text. */
  function Start(ws: seq<string>, j: nat): nat
    requires j <= |ws|
  {
    if j == 0 then 0 else |Joined(ws[..j])| + 1
  }

  function KeptWords(ws: seq<string>): seq<string> {
    seq(|ws|, j requires 0 <= j < |ws| => Kept(ws[j]))
  }

  lemma {:induction false} KeptAppend(a: string, b: string)
    ensures Kept(a + b) == Kept(a) + Kept(b)
  {
    hide IsSpace;
    hide IsControl;
    if b == "" {
      assert a + b == a;
    } else {
      KeptAppend(a, Butlast(b));
      assert Butlast(a + b) == a + Butlast(b);
    }
  }

  lemma {:induction false} KeptJoined(ws: seq<string>)
    ensures Kept(Joined(ws)) == Joined(KeptWords(ws))
  {
    if |ws| > 1 {
      KeptJoined(Butlast(ws));
      SpaceIsNoControl();
      KeptAppend(Joined(Butlast(ws)) + " ", Last(ws));
      KeptAppend(Joined(Butlast(ws)), " ");
      assert Butlast(KeptWords(ws)) == KeptWords(Butlast(ws));
    }
  }

  predicate NoneEmpty(ws: seq<string>, m: nat) {
    forall j :: 0 <= j < |ws| && Start(ws, j) < m ==> ws[j] != ""
  }

  /** The first `m` runes of the joined text: every word that starts there is non-empty (unless there
      is only one), and the cut is not right behind a space. */
  predicate CutsWell(ws: seq<string>, m: nat) {
    && (|ws| <= 1 || NoneEmpty(ws, m))
    && (0 < m <= |Joined(ws)| ==> Joined(ws)[m - 1] != ' ')
  }

  function Prefix(s: string, m: nat): string {
    if m < |s| then s[..m] else s
  }

  lemma {:induction false} JoinedSpaces(ws: seq<string>)
    requires forall w :: w in ws ==> SpaceFree(w)
    ensures forall c :: c in Joined(ws) && IsSpace(c) ==> c == ' '
  {
    hide IsSpace;
    if ws != [] {
      assert Last(ws) in ws;
      JoinedSpaces(Butlast(ws));
    }
  }

  /** Adding a word keeps the joined text tidy exactly when it was tidy and neither part is empty. */
  lemma TidyPush(a: string, v: string)
    requires SpaceFree(v)
    ensures Tidy(a + " " + v) <==> Tidy(a) && a != "" && v != ""
  {
    hide IsSpace;
    hide IsControl;
    var t := a + " " + v;
    SpaceIsNoControl();
    assert forall i :: 0 <= i < |a| ==> t[i] == a[i];
    assert t[|a|] == ' ';
    assert forall i :: 0 <= i < |v| ==> t[|a| + 1 + i] == v[i] && v[i] in v;
    if v == "" {
      assert Last(t) == ' ';
    } else if a != "" {
      assert Last(t) == Last(v);
      assert Last(a) == t[|a| - 1];
    }
  }

  /** Cutting the joined text after `m` runes, one word at a time. */
  lemma {:induction false} CutTidyIff(ws: seq<string>, m: nat)
    requires forall w :: w in ws ==> SpaceFree(w)
    ensures Tidy(Prefix(Joined(ws), m)) <==> CutsWell(ws, m)
  {
    hide IsSpace;
    hide IsControl;
    if |ws| <= 1 {
      OneWord(ws, m);
    } else {
      var init, v := Butlast(ws), Last(ws);
      var a := Joined(init);
      assert v in ws;
      CutTidyIff(init, m);
      CutPush(init, v, m);
      assert ws == init + [v];
    }
  }

  lemma OneWord(ws: seq<string>, m: nat)
    requires |ws| <= 1 && forall w :: w in ws ==> SpaceFree(w)
    ensures Tidy(Prefix(Joined(ws), m)) && CutsWell(ws, m)
  {
    hide IsSpace;
    hide SpaceFree;
    hide Tidy;
    hide NoneEmpty;
    EmptyIsSpaceFree();
    var w := if ws == [] then "" else ws[0];
    assert Joined(ws) == w && SpaceFree(w);
    PrefixSpaceFree(w, m);
    WordIsTidy(Prefix(w, m));
  }

  lemma WordIsTidy(w: string)
    requires SpaceFree(w)
    ensures Tidy(w)
  {
    hide IsSpace;
  }

  lemma CutPush(init: seq<string>, v: string, m: nat)
    requires init != [] && SpaceFree(v)
    requires Tidy(Prefix(Joined(init), m)) <==> CutsWell(init, m)
    ensures Tidy(Prefix(Joined(init + [v]), m)) <==> CutsWell(init + [v], m)
  {
    hide IsSpace;
    hide SpaceFree;
    hide NoneEmpty;
    hide Tidy;
    hide Joined;
    var a := Joined(init);
    var t := a + " " + v;
    JoinedPush(init, v);
    NoneEmptyPush(init, v, m);
    NoneEmptyAlone(init, m);
    if m <= |a| {
      assert Prefix(t, m) == Prefix(a, m);
    } else if m == |a| + 1 {
      assert Prefix(t, m) == a + " " + "";
      TidyPush(a, "") by { EmptyIsSpaceFree(); }
    } else {
      var v' := Prefix(v, m - |a| - 1);
      assert Prefix(t, m) == a + " " + v';
      PrefixSpaceFree(v, m - |a| - 1);
      TidyPush(a, v');
    }
  }

  lemma NoneEmptyPush(init: seq<string>, v: string, m: nat)
    requires init != []
    ensures NoneEmpty(init + [v], m) <==> NoneEmpty(init, m) && (|Joined(init)| + 1 < m ==> v != "")
  {
    var ws := init + [v];
    assert ws[..|init|] == init;
    forall j | 0 <= j < |init|
      ensures Start(ws, j) == Start(init, j)
    {
      assert ws[..j] == init[..j];
    }
    if NoneEmpty(ws, m) {
      forall j | 0 <= j < |init| && Start(init, j) < m
        ensures init[j] != ""
      {
        assert ws[j] == init[j] && Start(ws, j) == Start(init, j);
      }
      assert ws[|init|] == v && Start(ws, |init|) == |Joined(init)| + 1;
    }
  }

  /** One word alone is non-empty where the cut text is; two joined words never give the empty text. */
  lemma NoneEmptyAlone(ws: seq<string>, m: nat)
    requires ws != []
    ensures |ws| == 1 ==> (NoneEmpty(ws, m) <==> m == 0 || Joined(ws) != "")
    ensures |ws| > 1 ==> Joined(ws) != ""
  {
    if |ws| == 1 { assert Start(ws, 0) == 0; }
  }

  lemma EmptyIsSpaceFree()
    ensures SpaceFree("")
  {
  }

  lemma PrefixSpaceFree(v: string, m: nat)
    requires SpaceFree(v)
    ensures var v' := Prefix(v, m);
            SpaceFree(v') && (m > 0 && v != "" ==> v' != "") && (v == "" ==> v' == "")
            && (0 < m <= |v| ==> v[m - 1] != ' ')
  {
    hide IsSpace;
    SpaceIsNoControl();
  }

  /** When one pass is enough: every word that starts within the first 128 runes left has a rune
      left, unless it is the only word, and the cut is not right behind a space. */
  lemma OnePassSettlesIff(s: string)
    ensures Sanitized(Sanitized(s)) == Sanitized(s) <==> CutsWell(KeptWords(Words(s)), MAX_RUNES)
  {
    hide IsSpace;
    hide IsControl;
    var ws := KeptWords(Words(s));
    WordsAreWords(s);
    forall w | w in ws
      ensures SpaceFree(w)
    {
      var j :| 0 <= j < |ws| && ws[j] == w;
      KeptChars(Words(s)[j]);
      assert IsWord(Words(s)[j]);
    }
    KeptJoined(Words(s));
    CutTidyIff(ws, MAX_RUNES);
    NameIsClean(s);
    FixedIff(Sanitized(s));
  }
}
