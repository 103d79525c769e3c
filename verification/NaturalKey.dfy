/** Natural keys: the deterministic string that answers whether a piece of work
    has already been filed. */
module NaturalKey {
  import opened Prelude
  import opened BeadModel

  /** Case folding and the twelve-digit hash are taken as given. */
  datatype KeyEnv = KeyEnv(casefold: string -> string, digest: string -> string)

  datatype KeyError = NothingToKeyOn | ControlCharacter | EmptyKey | KeyTooLong | PartialForm | NoNamespace

  const SEPARATOR: char := '|'
  const ESCAPED_SEPARATOR := "%7C"
  const EXTERNAL_PREFIX := "ext"
  const GENERATED_PREFIX := "gen"
  const MAX_COMPONENT_LEN := 160

  predicate HasControl(s: string) {
    exists c :: c in s && (c as int < 0x20 || c as int == 0x7f)
  }

  /** Every run of whitespace becomes one space. */
  function Squeeze(s: string): string {
    if s == "" then ""
    else if !IsSpace(s[0]) then [s[0]] + Squeeze(s[1..])
    else if |s| > 1 && IsSpace(s[1]) then Squeeze(s[1..])
    else " " + Squeeze(s[1..])
  }

  function StripLeft(s: string): string {
    if s != "" && IsSpace(s[0]) then StripLeft(s[1..]) else s
  }

  function StripRight(s: string): string {
    if s != "" && IsSpace(s[|s| - 1]) then StripRight(s[..|s| - 1]) else s
  }

  function Clean(s: string): string { StripRight(StripLeft(Squeeze(s))) }

  /** `text.replace("|", "%7C")` */
  function Escape(s: string): (r: string)
    ensures SEPARATOR !in r
  {
    if s == "" then ""
    else (if s[0] == SEPARATOR then ESCAPED_SEPARATOR else [s[0]]) + Escape(s[1..])
  }

  /** Long text keeps a readable prefix and gains its hash. */
  function Bounded(env: KeyEnv, s: string): string {
    if |s| > MAX_COMPONENT_LEN then s[..MAX_COMPONENT_LEN - 13] + "~" + env.digest(s) else s
  }

  function NormalizeComponent(env: KeyEnv, value: Option<string>, foldCase: bool): (r: Result<string, KeyError>)
    ensures r.Ok? ==> SEPARATOR !in r.value
  {
    if value.None? then Err(NothingToKeyOn)
    else if HasControl(value.value) then Err(ControlCharacter)
    else
      var text := Clean(value.value);
      if text == "" then Err(EmptyKey)
      else Ok(Escape(Bounded(env, if foldCase then env.casefold(text) else text)))
  }

  /** A key the caller states whole; its separators are its own. */
  function NormalizeExplicit(value: string): Result<string, KeyError> {
    if HasControl(value) then Err(ControlCharacter)
    else
      var text := Clean(value);
      if text == "" then Err(EmptyKey)
      else if |text| > MAX_COMPONENT_LEN * 4 then Err(KeyTooLong)
      else Ok(text)
  }

  function ExternalKey(env: KeyEnv, source: Option<string>, sourceId: Option<string>): Result<string, KeyError> {
    match NormalizeComponent(env, source, true)
    case Err(e) => Err(e)
    case Ok(s) =>
      match NormalizeComponent(env, sourceId, false)
      case Err(e) => Err(e)
      case Ok(i) => Ok(Join([EXTERNAL_PREFIX, s, i], SEPARATOR))
  }

  function GeneratedKey(env: KeyEnv, kind: Option<string>, subject: Option<string>, period: Option<string>): Result<string, KeyError> {
    match NormalizeComponent(env, kind, true)
    case Err(e) => Err(e)
    case Ok(k) =>
      match NormalizeComponent(env, subject, true)
      case Err(e) => Err(e)
      case Ok(s) =>
        match NormalizeComponent(env, period, false)
        case Err(e) => Err(e)
        case Ok(p) => Ok(Join([GENERATED_PREFIX, k, s, p], SEPARATOR))
  }

  datatype KeyInputs = KeyInputs(
    explicit: Option<string>, source: Option<string>, sourceId: Option<string>,
    kind: Option<string>, subject: Option<string>, period: Option<string>)

  /** Explicit, then generated, then external; a partly supplied form is refused. */
  function DeriveNaturalKey(env: KeyEnv, i: KeyInputs): Result<Option<string>, KeyError> {
    if i.explicit.Some? then
      match NormalizeExplicit(i.explicit.value)
      case Ok(k) => Ok(Some(k))
      case Err(e) => Err(e)
    else if i.kind.Some? || i.subject.Some? || i.period.Some? then
      if i.kind.None? || i.subject.None? || i.period.None? then Err(PartialForm)
      else match GeneratedKey(env, i.kind, i.subject, i.period)
        case Ok(k) => Ok(Some(k))
        case Err(e) => Err(e)
    else if i.sourceId.Some? then
      if i.source.None? then Err(NoNamespace)
      else match ExternalKey(env, i.source, i.sourceId)
        case Ok(k) => Ok(Some(k))
        case Err(e) => Err(e)
    else Ok(None)
  }

  // --- what a cleaned component is -------------------------------------------

  /** The maximal runs of non-whitespace of `s`, in order. */
  function Words(s: string): (r: seq<string>)
    ensures s != "" && !IsSpace(s[0]) ==> r != []
  {
    if s == "" then []
    else if IsSpace(s[0]) then Words(s[1..])
    else if |s| == 1 || IsSpace(s[1]) then [[s[0]]] + Words(s[1..])
    else
      var w := Words(s[1..]);
      [[s[0]] + w[0]] + w[1..]
  }

  function Spaced(words: seq<string>): string {
    if words == [] then "" else Join(words, ' ')
  }

  lemma {:induction false} WordsSolid(s: string)
    ensures forall w :: w in Words(s) ==> w != "" && forall c :: c in w ==> !IsSpace(c)
  {
    if s != "" {
      WordsSolid(s[1..]);
      if !IsSpace(s[0]) && !(|s| == 1 || IsSpace(s[1])) {
        var rest := Words(s[1..]);
        assert forall w :: w in rest[1..] ==> w in rest;
        assert rest[0] in rest;
      }
    }
  }

  lemma {:induction false} NoWordsAllSpace(s: string)
    requires Words(s) == []
    ensures forall c :: c in s ==> IsSpace(c)
  {
    if s != "" {
      NoWordsAllSpace(s[1..]);
      assert s == [s[0]] + s[1..];
    }
  }

  /** The words of `s` spaced out, with the one space a trailing run leaves. */
  function Body(s: string): string {
    Spaced(Words(s)) + (if Words(s) != [] && IsSpace(s[|s| - 1]) then " " else "")
  }

  function Lead(s: string): string {
    if s != "" && IsSpace(s[0]) then " " else ""
  }

  lemma BodyWordEnds(s: string)
    requires |s| > 1 && !IsSpace(s[0]) && IsSpace(s[1])
    ensures Body(s) == [s[0]] + " " + Body(s[1..])
  {
    var t := s[1..];
    var rest := Words(t);
    assert Words(s) == [[s[0]]] + rest;
    assert s[|s| - 1] == t[|t| - 1];
    if rest == [] {
      NoWordsAllSpace(t);
      assert t[|t| - 1] in t;
    } else {
      assert Words(s)[1..] == rest;
    }
  }

  lemma BodyWordGoesOn(s: string)
    requires |s| > 1 && !IsSpace(s[0]) && !IsSpace(s[1])
    ensures Body(s) == [s[0]] + Body(s[1..])
  {
    var rest := Words(s[1..]);
    assert Words(s) == [[s[0]] + rest[0]] + rest[1..];
    assert Words(s)[1..] == rest[1..];
    assert Spaced(Words(s)) == [s[0]] + Spaced(rest);
  }

  lemma {:induction false} SqueezeWords(s: string)
    ensures Squeeze(s) == Lead(s) + Body(s)
  {
    if s != "" {
      var t := s[1..];
      SqueezeWords(t);
      if IsSpace(s[0]) {
        assert Body(s) == Body(t);
      } else if |s| == 1 {
        assert Words(t) == [];
      } else if IsSpace(s[1]) {
        BodyWordEnds(s);
      } else {
        BodyWordGoesOn(s);
      }
    }
  }

  lemma {:induction false} JoinEnds(words: seq<string>)
    requires words != [] && forall w :: w in words ==> w != "" && forall c :: c in w ==> !IsSpace(c)
    ensures Join(words, ' ') != ""
    ensures !IsSpace(Join(words, ' ')[0]) && !IsSpace(Join(words, ' ')[|Join(words, ' ')| - 1])
  {
    assert words[0] in words;
    assert words[0][0] in words[0];
    assert words[0][|words[0]| - 1] in words[0];
    if |words| > 1 {
      assert forall w :: w in words[1..] ==> w in words;
      JoinEnds(words[1..]);
    }
  }

  lemma StripLead(lead: string, rest: string)
    requires lead == "" || lead == " "
    requires rest == "" || !IsSpace(rest[0])
    ensures StripLeft(lead + rest) == rest
  {
    if lead == " " {
      assert (lead + rest)[1..] == rest;
    } else {
      assert lead + rest == rest;
    }
  }

  lemma StripTail(body: string, tail: string)
    requires tail == "" || tail == " "
    requires body == "" || !IsSpace(body[|body| - 1])
    ensures StripRight(body + tail) == body
  {
    if tail == " " {
      assert (body + tail)[..|body + tail| - 1] == body;
    } else {
      assert body + tail == body;
    }
  }

  /** A cleaned text is its words with single spaces between them, so two texts
      clean alike exactly when they have the same words. */
  lemma CleanIsWords(s: string)
    ensures Clean(s) == Spaced(Words(s))
  {
    SqueezeWords(s);
    WordsSolid(s);
    var words := Words(s);
    var tail := if words != [] && IsSpace(s[|s| - 1]) then " " else "";
    if words != [] {
      JoinEnds(words);
    }
    StripLead(Lead(s), Spaced(words) + tail);
    StripTail(Spaced(words), tail);
  }

  lemma {:induction false} WordsOfSpaced(words: seq<string>)
    requires forall w :: w in words ==> w != "" && forall c :: c in w ==> !IsSpace(c)
    ensures Words(Spaced(words)) == words
  {
    if words != [] {
      var w, rest := words[0], words[1..];
      assert w in words;
      assert forall v :: v in rest ==> v in words;
      WordsOfSpaced(rest);
      WordBefore(w, rest);
      assert words == [w] + rest;
    }
  }

  lemma WordBefore(w: string, rest: seq<string>)
    requires w != "" && forall c :: c in w ==> !IsSpace(c)
    requires Words(Spaced(rest)) == rest
    ensures Words(Spaced([w] + rest)) == [w] + rest
  {
    if rest == [] {
      WordThen(w, "");
      assert w + "" == w;
    } else {
      assert ([w] + rest)[1..] == rest;
      assert Spaced([w] + rest) == w + (" " + Spaced(rest));
      WordThen(w, " " + Spaced(rest));
      assert (" " + Spaced(rest))[1..] == Spaced(rest);
    }
  }

  lemma {:induction false} WordThen(w: string, tail: string)
    requires w != "" && forall c :: c in w ==> !IsSpace(c)
    requires tail == "" || IsSpace(tail[0])
    ensures Words(w + tail) == [w] + Words(tail)
  {
    assert w[0] in w;
    assert (w + tail)[0] == w[0];
    assert (w + tail)[1..] == w[1..] + tail;
    if |w| == 1 {
      assert w[1..] + tail == tail;
      assert w == [w[0]];
    } else {
      assert w[1] in w;
      assert forall c :: c in w[1..] ==> c in w;
      WordThen(w[1..], tail);
      assert w == [w[0]] + w[1..];
    }
  }

  /** Cleaning forgets exactly the whitespace around and between words. */
  lemma CleanAlike(s: string, t: string)
    ensures Clean(s) == Clean(t) <==> Words(s) == Words(t)
    ensures Clean(Clean(s)) == Clean(s)
  {
    CleanIsWords(s);
    CleanIsWords(t);
    WordsSolid(s);
    WordsSolid(t);
    WordsOfSpaced(Words(s));
    WordsOfSpaced(Words(t));
    CleanIsWords(Clean(s));
  }

  // --- which texts make a component, and when two make the same -------------------

  lemma {:induction false} WordlessIsBlank(s: string)
    ensures Words(s) == [] <==> IsBlank(s)
  {
    if s != "" {
      WordlessIsBlank(s[1..]);
      assert s == [s[0]] + s[1..];
    }
  }

  lemma CleanIsEmptyIff(s: string)
    ensures Clean(s) == "" <==> IsBlank(s)
  {
    CleanIsWords(s);
    WordlessIsBlank(s);
    WordsSolid(s);
    if Words(s) != [] { JoinEnds(Words(s)); }
  }

  /** Exactly a text with something to read and no control character makes a
      component, and the first fault found is the one reported. */
  lemma ComponentDecides(env: KeyEnv, value: Option<string>, foldCase: bool)
    ensures var r := NormalizeComponent(env, value, foldCase);
      && (r == Err(NothingToKeyOn) <==> value.None?)
      && (r == Err(ControlCharacter) <==> value.Some? && exists c :: c in value.value && (c as int < 32 || c as int == 127))
      && (r.Ok? <==> value.Some? && !IsBlank(value.value) && forall c :: c in value.value ==> c as int >= 32 && c as int != 127)
      && (r.Ok? || r.error in {NothingToKeyOn, ControlCharacter, EmptyKey})
  {
    if value.Some? { CleanIsEmptyIff(value.value); }
  }

  /** The escaped separator turned back, from left to right. */
  function Unescape(s: string): string {
    if s == "" then ""
    else if "%7C" <= s then "|" + Unescape(s[3..])
    else [s[0]] + Unescape(s[1..])
  }

  /** The text holds the escaped separator already. */
  predicate HoldsEscape(s: string) { s != "" && ("%7C" <= s || HoldsEscape(s[1..])) }

  lemma {:induction false} UnescapeEscape(s: string)
    requires !HoldsEscape(s)
    ensures Unescape(Escape(s)) == s
  {
    if s != "" {
      var rest := Escape(s[1..]);
      UnescapeEscape(s[1..]);
      if s[0] == '|' {
        assert ("%7C" + rest)[3..] == rest;
      } else {
        assert Escape(s) == [s[0]] + rest;
        if "%7C" <= Escape(s) { EscapeStart(s); }
        assert ([s[0]] + rest)[1..] == rest;
      }
      assert s == [s[0]] + s[1..];
    }
  }

  /** An escape at the front of an escaped text was a separator there. */
  lemma EscapeStart(s: string)
    requires s != "" && s[0] != '|' && "%7C" <= Escape(s)
    ensures "%7C" <= s
  {
    var one, two := Escape(s[1..]), Escape(s[1..][1..]);
    assert Escape(s) == [s[0]] + one;
    assert one[0] == '7' && one[1] == 'C' by { assert one == Escape(s)[1..]; }
    assert s[1] == '7';
    assert one == ['7'] + two && two[0] == 'C';
    assert s[2] == 'C';
    assert s[..3] == "%7C";
  }

  /** Escaping keeps texts apart as long as neither already holds `%7C`. */
  lemma EscapeApart(s: string, t: string)
    requires !HoldsEscape(s) && !HoldsEscape(t)
    ensures Escape(s) == Escape(t) <==> s == t
  {
    UnescapeEscape(s);
    UnescapeEscape(t);
  }

  lemma {:induction false} EscapePlain(s: string)
    ensures '|' !in s ==> Escape(s) == s
    ensures '|' in s ==> HoldsEscape(Escape(s))
  {
    if s != "" {
      EscapePlain(s[1..]);
      assert s == [s[0]] + s[1..];
      if s[0] != '|' { assert Escape(s)[1..] == Escape(s[1..]); }
    }
  }

  lemma {:induction false} EscapeUnescape(s: string)
    requires '|' !in s
    ensures Escape(Unescape(s)) == s
    ensures HoldsEscape(s) ==> '|' in Unescape(s)
  {
    if s != "" {
      if "%7C" <= s {
        EscapeUnescape(s[3..]);
        assert Unescape(s)[0] == '|' && Unescape(s)[1..] == Unescape(s[3..]);
        assert s == "%7C" + s[3..];
      } else {
        EscapeUnescape(s[1..]);
        assert Unescape(s)[1..] == Unescape(s[1..]);
        assert s == [s[0]] + s[1..];
      }
    }
  }

  /** A text shares its escaped form with no other if and only if it holds neither
      the separator nor `%7C`: a separator and its escape read the same. */
  lemma EscapeOwnIff(s: string)
    ensures (forall t :: Escape(t) == Escape(s) ==> t == s) <==> '|' !in s && !HoldsEscape(s)
  {
    EscapePlain(s);
    EscapePlain(Escape(s));
    if '|' in s {
      assert Escape(Escape(s)) == Escape(s) && Escape(s) != s;
    } else if HoldsEscape(s) {
      EscapeUnescape(s);
      assert Escape(Unescape(s)) == Escape(s) && Unescape(s) != s;
    } else {
      forall t | Escape(t) == Escape(s) ensures t == s {
        EscapePlain(t);
      }
    }
  }

  /** Two texts are shortened alike exactly when they are the same, or one is the
      very form the other is shortened to, or both are too long, begin alike and
      share a digest. */
  lemma BoundedAlikeIff(env: KeyEnv, a: string, b: string)
    requires |env.digest(a)| == |env.digest(b)| == 12
    ensures Bounded(env, a) == Bounded(env, b) <==>
      || a == b
      || (|a| > 160 >= |b| && b == a[..147] + "~" + env.digest(a))
      || (|b| > 160 >= |a| && a == b[..147] + "~" + env.digest(b))
      || (|a| > 160 && |b| > 160 && a[..147] == b[..147] && env.digest(a) == env.digest(b))
    ensures |Bounded(env, a)| <= 160
  {
    if |a| > 160 && |b| > 160 {
      var x, y := Bounded(env, a), Bounded(env, b);
      assert x[148..] == env.digest(a) && y[148..] == env.digest(b);
      assert x[..147] == a[..147] && y[..147] == b[..147];
    }
  }

  /** The text a component is made of. */
  function ComponentText(env: KeyEnv, value: string, foldCase: bool): string {
    var text := Spaced(Words(value));
    if foldCase then env.casefold(text) else text
  }

  /** Two components are equal exactly when their words, case-folded where that
      applies, are, provided neither is too long and neither holds `%7C`. */
  lemma ShortComponentsAgreeIff(env: KeyEnv, s: string, t: string, foldCase: bool)
    requires NormalizeComponent(env, Some(s), foldCase).Ok? && NormalizeComponent(env, Some(t), foldCase).Ok?
    requires var a, b := ComponentText(env, s, foldCase), ComponentText(env, t, foldCase);
      |a| <= 160 && |b| <= 160 && !HoldsEscape(a) && !HoldsEscape(b)
    ensures NormalizeComponent(env, Some(s), foldCase) == NormalizeComponent(env, Some(t), foldCase)
      <==> ComponentText(env, s, foldCase) == ComponentText(env, t, foldCase)
  {
    CleanIsWords(s);
    CleanIsWords(t);
    EscapeApart(ComponentText(env, s, foldCase), ComponentText(env, t, foldCase));
  }

  /** Over-long texts with different digests make different components, even when
      they differ only past the readable prefix. */
  lemma LongComponentsApart(env: KeyEnv, s: string, t: string, foldCase: bool)
    requires NormalizeComponent(env, Some(s), foldCase).Ok? && NormalizeComponent(env, Some(t), foldCase).Ok?
    requires var a, b := ComponentText(env, s, foldCase), ComponentText(env, t, foldCase);
      && |a| > 160 && |b| > 160 && |env.digest(a)| == |env.digest(b)| == 12 && env.digest(a) != env.digest(b)
      && !HoldsEscape(Bounded(env, a)) && !HoldsEscape(Bounded(env, b))
    ensures NormalizeComponent(env, Some(s), foldCase) != NormalizeComponent(env, Some(t), foldCase)
  {
    CleanIsWords(s);
    CleanIsWords(t);
    var a, b := ComponentText(env, s, foldCase), ComponentText(env, t, foldCase);
    BoundedAlikeIff(env, a, b);
    EscapeApart(Bounded(env, a), Bounded(env, b));
  }

  // --- what the derivation decides ------------------------------------------------

  /** A stated key wins over everything else: it is its words with single spaces, at
      most 640 characters, its separators left alone. */
  lemma ExplicitDecides(env: KeyEnv, i: KeyInputs)
    requires i.explicit.Some?
    ensures var s := i.explicit.value; var r := DeriveNaturalKey(env, i);
      && (r.Ok? <==> !HasControl(s) && !IsBlank(s) && |Spaced(Words(s))| <= 640)
      && (r.Ok? ==> r.value == Some(Spaced(Words(s))))
  {
    CleanIsWords(i.explicit.value);
    CleanIsEmptyIff(i.explicit.value);
  }

  predicate Usable(value: Option<string>) { value.Some? && !HasControl(value.value) && !IsBlank(value.value) }

  /** With no stated key, any part of a generated one asks for all three, and an
      external id for its namespace; nothing at all derives no key. */
  lemma DerivedDecides(env: KeyEnv, i: KeyInputs)
    requires i.explicit.None?
    ensures var r := DeriveNaturalKey(env, i);
      var someGenerated := i.kind.Some? || i.subject.Some? || i.period.Some?;
      var allGenerated := i.kind.Some? && i.subject.Some? && i.period.Some?;
      && (r == Err(PartialForm) <==> someGenerated && !allGenerated)
      && (r == Err(NoNamespace) <==> !someGenerated && i.sourceId.Some? && i.source.None?)
      && (r == Ok(None) <==> !someGenerated && i.sourceId.None?)
      && (someGenerated ==> (r.Ok? <==> Usable(i.kind) && Usable(i.subject) && Usable(i.period)))
      && (!someGenerated && i.sourceId.Some? ==> (r.Ok? <==> Usable(i.source) && Usable(i.sourceId)))
      && (r.Ok? && someGenerated ==> r.value == Some(GeneratedKey(env, i.kind, i.subject, i.period).value))
      && (r.Ok? && !someGenerated && i.sourceId.Some? ==> r.value == Some(ExternalKey(env, i.source, i.sourceId).value))
  {
    ComponentDecides(env, i.kind, true);
    ComponentDecides(env, i.subject, true);
    ComponentDecides(env, i.period, false);
    ComponentDecides(env, i.source, true);
    ComponentDecides(env, i.sourceId, false);
  }

  // --- what a derived key is --------------------------------------------------

  /** An external key splits back into its escaped components. */
  lemma ExternalKeySplits(env: KeyEnv, source: Option<string>, sourceId: Option<string>)
    ensures ExternalKey(env, source, sourceId).Ok? ==>
      && NormalizeComponent(env, source, true).Ok? && NormalizeComponent(env, sourceId, false).Ok?
      && Split(ExternalKey(env, source, sourceId).value, SEPARATOR)
         == [EXTERNAL_PREFIX, NormalizeComponent(env, source, true).value, NormalizeComponent(env, sourceId, false).value]
  {
    if ExternalKey(env, source, sourceId).Ok? {
      SplitJoin([EXTERNAL_PREFIX, NormalizeComponent(env, source, true).value, NormalizeComponent(env, sourceId, false).value], SEPARATOR);
    }
  }

  lemma GeneratedKeySplits(env: KeyEnv, kind: Option<string>, subject: Option<string>, period: Option<string>)
    ensures GeneratedKey(env, kind, subject, period).Ok? ==>
      && NormalizeComponent(env, kind, true).Ok? && NormalizeComponent(env, subject, true).Ok?
      && NormalizeComponent(env, period, false).Ok?
      && Split(GeneratedKey(env, kind, subject, period).value, SEPARATOR)
         == [GENERATED_PREFIX, NormalizeComponent(env, kind, true).value,
             NormalizeComponent(env, subject, true).value, NormalizeComponent(env, period, false).value]
  {
    if GeneratedKey(env, kind, subject, period).Ok? {
      SplitJoin([GENERATED_PREFIX, NormalizeComponent(env, kind, true).value,
                 NormalizeComponent(env, subject, true).value, NormalizeComponent(env, period, false).value], SEPARATOR);
    }
  }

  /** The two derived forms never meet. */
  lemma FormsNeverCoincide(env: KeyEnv, source: Option<string>, sourceId: Option<string>,
                           kind: Option<string>, subject: Option<string>, period: Option<string>)
    ensures ExternalKey(env, source, sourceId).Ok? && GeneratedKey(env, kind, subject, period).Ok? ==>
      ExternalKey(env, source, sourceId).value != GeneratedKey(env, kind, subject, period).value
  {
    ExternalKeySplits(env, source, sourceId);
    GeneratedKeySplits(env, kind, subject, period);
  }

  /** Two external records share a key exactly when both normalised components agree. */
  lemma ExternalKeysAgree(env: KeyEnv, s1: Option<string>, i1: Option<string>, s2: Option<string>, i2: Option<string>)
    ensures ExternalKey(env, s1, i1).Ok? && ExternalKey(env, s2, i2).Ok? ==>
      (ExternalKey(env, s1, i1).value == ExternalKey(env, s2, i2).value <==>
        && NormalizeComponent(env, s1, true) == NormalizeComponent(env, s2, true)
        && NormalizeComponent(env, i1, false) == NormalizeComponent(env, i2, false))
  {
    ExternalKeySplits(env, s1, i1);
    ExternalKeySplits(env, s2, i2);
    if ExternalKey(env, s1, i1).Ok? && ExternalKey(env, s2, i2).Ok? {
      var a := Split(ExternalKey(env, s1, i1).value, SEPARATOR);
      var b := Split(ExternalKey(env, s2, i2).value, SEPARATOR);
      if a == b { assert a[1] == b[1] && a[2] == b[2]; }
    }
  }

  lemma GeneratedKeysAgree(env: KeyEnv, k1: Option<string>, s1: Option<string>, p1: Option<string>,
                           k2: Option<string>, s2: Option<string>, p2: Option<string>)
    ensures GeneratedKey(env, k1, s1, p1).Ok? && GeneratedKey(env, k2, s2, p2).Ok? ==>
      (GeneratedKey(env, k1, s1, p1).value == GeneratedKey(env, k2, s2, p2).value <==>
        && NormalizeComponent(env, k1, true) == NormalizeComponent(env, k2, true)
        && NormalizeComponent(env, s1, true) == NormalizeComponent(env, s2, true)
        && NormalizeComponent(env, p1, false) == NormalizeComponent(env, p2, false))
  {
    GeneratedKeySplits(env, k1, s1, p1);
    GeneratedKeySplits(env, k2, s2, p2);
    if GeneratedKey(env, k1, s1, p1).Ok? && GeneratedKey(env, k2, s2, p2).Ok? {
      var a := Split(GeneratedKey(env, k1, s1, p1).value, SEPARATOR);
      var b := Split(GeneratedKey(env, k2, s2, p2).value, SEPARATOR);
      if a == b { assert a[1] == b[1] && a[2] == b[2] && a[3] == b[3]; }
    }
  }
}
