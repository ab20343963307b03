/**
 * Field normalisers and per-field similarity scorers of the profile
 * matching agent. The fuzzy-matching, date-parsing, phone-number and
 * e-mail libraries the agent calls are not modelled: they are the fields
 * of an `Oracles` value that every scorer takes as a parameter.
 */
module ProfileScoring {
  import opened Wrappers
  import opened Strings

  /** The foreign primitives. Each is a total function; `None` stands for
      "the library raised" or "no valid value". */
  datatype Oracles = Oracles(
    ratio: (string, string) -> real,            // fuzz.ratio
    partialRatio: (string, string) -> real,     // fuzz.partial_ratio
    tokenSortRatio: (string, string) -> real,   // fuzz.token_sort_ratio
    tokenSetRatio: (string, string) -> real,    // fuzz.token_set_ratio
    sequenceRatio: (string, string) -> real,    // SequenceMatcher(None, a, b).ratio()
    parseDate: string -> Option<int>,           // parser.parse, as a day number
    parsePhone: string -> Option<string>,       // the E.164 search of _normalize_phone
    validateEmail: string -> Option<(string, string)>  // validate_email(...).normalized, split at '@'
  )

  /** What the libraries promise: fuzzy ratios lie in [0, 100] and the
      sequence-matcher ratio in [0, 1]. */
  ghost predicate ValidOracles(o: Oracles)
  {
    && (forall a, b :: 0.0 <= o.ratio(a, b) <= 100.0)
    && (forall a, b :: 0.0 <= o.partialRatio(a, b) <= 100.0)
    && (forall a, b :: 0.0 <= o.tokenSortRatio(a, b) <= 100.0)
    && (forall a, b :: 0.0 <= o.tokenSetRatio(a, b) <= 100.0)
    && (forall a, b :: 0.0 <= o.sequenceRatio(a, b) <= 1.0)
  }

  function Max(a: real, b: real): real { if a >= b then a else b }

  predicate InScoreRange(x: real) { 0.0 <= x <= 100.0 }

  // ---------------------------------------------------------------------
  // Names

  /** NAME_PATTERNS['suffixes'] and NAME_PATTERNS['prefixes']. */
  const NameSuffixes: seq<string> := ["jr", "sr", "ii", "iii", "iv", "v"]
  const NamePrefixes: seq<string> := ["mr", "mrs", "ms", "miss", "dr", "prof"]

  predicate IsAffix(w: string) { w in NameSuffixes || w in NamePrefixes }

  /** The characters `[a-z0-9-]` a normalised name token is made of. */
  predicate IsNameChar(c: char) { 'a' <= c <= 'z' || '0' <= c <= '9' || c == '-' }

  /** The characters the pattern `[^a-z0-9\s\-]` does not delete. */
  predicate KeptInName(c: char) { IsNameChar(c) || IsSpace(c) }

  /** The words that are neither a name prefix nor a name suffix. */
  function DropAffixes(words: seq<string>): (r: seq<string>)
    ensures forall w :: w in r ==> w in words && !IsAffix(w)
    ensures forall w :: w in words && !IsAffix(w) ==> w in r
    ensures (forall w :: w in words ==> !IsAffix(w)) ==> r == words
  {
    if |words| == 0 then []
    else
      var rest := DropAffixes(words[1..]);
      assert forall w :: w in words[1..] ==> w in words;
      if IsAffix(words[0]) then rest else [words[0]] + rest
  }

  /** The word filter keeps the order of the words: filtering a
      concatenation is filtering each part. */
  lemma {:induction false} DropAffixesAppend(a: seq<string>, b: seq<string>)
    ensures DropAffixes(a + b) == DropAffixes(a) + DropAffixes(b)
    decreases |a|
  {
    var ab := a + b;
    if |a| > 0 {
      assert ab[0] == a[0];
      assert ab[1..] == a[1..] + b;
      DropAffixesAppend(a[1..], b);
      if IsAffix(a[0]) {
        assert DropAffixes(ab) == DropAffixes(ab[1..]);
        assert DropAffixes(a) == DropAffixes(a[1..]);
      } else {
        assert DropAffixes(ab) == [a[0]] + DropAffixes(ab[1..]);
        assert DropAffixes(a) == [a[0]] + DropAffixes(a[1..]);
      }
    } else {
      assert ab == b;
    }
  }

  /** _normalize_name: lower-case, collapse whitespace, delete the
      characters other than `[a-z0-9]`, whitespace and '-', then drop the
      prefix and suffix words. */
  function NormalizeName(name: string): string
  {
    if name == "" then ""
    else
      var collapsed := Join(Split(Lower(name)), " ");
      var cleaned := KeepChars(collapsed, KeptInName);
      Join(DropAffixes(Split(cleaned)), " ")
  }

  /** The tokens of a normalised name: non-empty words over `[a-z0-9-]`,
      none of them a prefix or suffix. */
  ghost predicate NameTokens(ts: seq<string>)
  {
    forall t :: t in ts ==> t != [] && !IsAffix(t) && (forall c :: c in t ==> IsNameChar(c))
  }

  lemma NameTokensHaveNoSpace(ts: seq<string>)
    requires NameTokens(ts)
    ensures forall t :: t in ts ==> t != [] && NoSpace(t)
  {
    forall t | t in ts ensures NoSpace(t) {
      forall i | 0 <= i < |t| ensures !IsSpace(t[i]) {
        assert t[i] in t;
      }
    }
  }

  lemma JoinNameTokensChars(ts: seq<string>)
    requires NameTokens(ts)
    ensures forall c :: c in Join(ts, " ") ==> IsNameChar(c) || c == ' '
  {
    forall c | c in Join(ts, " ") ensures IsNameChar(c) || c == ' ' {
      JoinChars(ts, " ", c);
    }
  }

  /** The words the normaliser keeps out of the cleaned string. */
  lemma {:induction false} NormalizedTokens(name: string)
    requires name != ""
    ensures
      var cleaned := KeepChars(Join(Split(Lower(name)), " "), KeptInName);
      NameTokens(DropAffixes(Split(cleaned)))
  {
    var cleaned := KeepChars(Join(Split(Lower(name)), " "), KeptInName);
    var words := Split(cleaned);
    SplitTokens(cleaned);
    forall t | t in DropAffixes(words)
      ensures t != [] && !IsAffix(t) && (forall c :: c in t ==> IsNameChar(c))
    {
      assert t in words;
      forall c | c in t ensures IsNameChar(c) {
        var i :| 0 <= i < |t| && t[i] == c;
        assert !IsSpace(t[i]);
        assert c in cleaned;
      }
    }
  }

  /** The shape of a normalised name: the empty string for an empty input,
      otherwise the single-blank join of its tokens, every token a
      non-empty word over `[a-z0-9-]` that is not a prefix or suffix. */
  lemma NormalizeNameShape(name: string)
    ensures name == "" ==> NormalizeName(name) == ""
    ensures NameTokens(Split(NormalizeName(name)))
    ensures Join(Split(NormalizeName(name)), " ") == NormalizeName(name)
    ensures forall c :: c in NormalizeName(name) ==> IsNameChar(c) || c == ' '
  {
    if name != "" {
      var cleaned := KeepChars(Join(Split(Lower(name)), " "), KeptInName);
      var ts := DropAffixes(Split(cleaned));
      NormalizedTokens(name);
      NameTokensHaveNoSpace(ts);
      SplitJoin(ts);
      JoinNameTokensChars(ts);
    }
  }

  /** Normalising a name twice gives the same result as normalising once. */
  lemma NormalizeNameIdempotent(name: string)
    ensures NormalizeName(NormalizeName(name)) == NormalizeName(name)
  {
    var r := NormalizeName(name);
    NormalizeNameShape(name);
    if r != "" {
      var ts := Split(r);
      forall i | 0 <= i < |r| ensures !IsUpper(r[i]) {
        assert r[i] in r;
      }
      LowerIdentity(r);
      NameTokensHaveNoSpace(ts);
      assert Join(Split(Lower(r)), " ") == r;
      forall c | c in r ensures KeptInName(c) {
      }
      assert KeepChars(r, KeptInName) == r;
      assert DropAffixes(ts) == ts;
    }
  }

  // ---------------------------------------------------------------------
  // Identifiers

  predicate IsIdChar(c: char) { 'a' <= c <= 'z' || '0' <= c <= '9' }

  /** The characters the pattern `[^a-zA-Z0-9]` does not delete. */
  predicate KeptInId(c: char) { IsIdChar(c) || IsUpper(c) }

  /** _normalize_id: lower-case, then delete everything but letters and
      digits. */
  function NormalizeId(id: string): string
  {
    if id == "" then "" else KeepChars(Lower(id), KeptInId)
  }

  /** A normalised identifier holds only `[a-z0-9]`. */
  lemma NormalizeIdChars(id: string)
    ensures forall c :: c in NormalizeId(id) ==> IsIdChar(c)
  {
    if id != "" {
      forall c | c in NormalizeId(id) ensures IsIdChar(c) {
        assert c in Lower(id);
        var i :| 0 <= i < |id| && Lower(id)[i] == c;
      }
    }
  }

  /** _calculate_id_score. */
  function IdScore(o: Oracles, queryId: string, recordId: string): real
  {
    var q := NormalizeId(queryId);
    var r := NormalizeId(recordId);
    if q == "" || r == "" then 0.0
    else if q == r then 100.0
    else
      var best := Max(Max(o.ratio(q, r), o.partialRatio(q, r)), o.tokenSortRatio(q, r));
      if |q| == |r| then Max(best, o.sequenceRatio(q, r) * 100.0) else best
  }

  /** Identifiers that differ only in case, blanks or punctuation score 100;
      an identifier that normalises to nothing scores 0. */
  lemma IdScoreEquivalentIds(o: Oracles, a: string, b: string)
    ensures NormalizeId(a) == NormalizeId(b) && NormalizeId(a) != "" ==> IdScore(o, a, b) == 100.0
    ensures NormalizeId(a) == "" || NormalizeId(b) == "" ==> IdScore(o, a, b) == 0.0
  {
  }

  /** Case does not matter to a normalised identifier. */
  lemma NormalizeIdIgnoresCase(id: string)
    ensures NormalizeId(Lower(id)) == NormalizeId(id)
  {
    assert Lower(Lower(id)) == Lower(id);
  }

  /** Deleting one blank or punctuation character does not change a
      normalised identifier. */
  lemma NormalizeIdIgnoresSeparator(a: string, c: char, b: string)
    requires !KeptInId(LowerChar(c))
    ensures NormalizeId(a + [c] + b) == NormalizeId(a + b)
  {
    LowerInsert(a, c, b);
    LowerAppend(a, b);
    KeepCharsSkip(Lower(a), LowerChar(c), Lower(b), KeptInId);
    if a + b == "" {
      assert KeepChars(Lower(a + [c] + b), KeptInId) == KeepChars(Lower(a + b), KeptInId);
    }
  }

  // ---------------------------------------------------------------------
  // Dates

  /** _normalize_date: empty input is rejected before the parser runs. */
  function NormalizeDate(o: Oracles, s: string): Option<int>
  {
    if s == "" then None else o.parseDate(s)
  }

  function Abs(x: int): nat { if x < 0 then -x else x }

  /** The score tiers of _calculate_date_score by distance in days. */
  function DateTier(gap: nat): real
  {
    if gap == 0 then 100.0
    else if gap <= 1 then 90.0
    else if gap <= 7 then 80.0
    else if gap <= 30 then 60.0
    else if gap <= 365 then 40.0
    else 0.0
  }

  /** _calculate_date_score: 0 when either date fails to parse, 100 on the
      same day, otherwise a tier of the distance in days. */
  function DateScore(o: Oracles, queryDate: string, recordDate: string): real
  {
    match (NormalizeDate(o, queryDate), NormalizeDate(o, recordDate))
    case (Some(q), Some(r)) => if q == r then 100.0 else DateTier(Abs(q - r))
    case _ => 0.0
  }

  /** The tiers never rise as the gap grows. */
  lemma DateTierMonotone(g1: nat, g2: nat)
    requires g1 <= g2
    ensures DateTier(g2) <= DateTier(g1)
  {
  }

  /** The date score in closed form: 0 on a parse failure, otherwise the
      tier of the day distance (which is 100 for the same day). It is
      symmetric in its arguments. */
  lemma DateScoreSpec(o: Oracles, a: string, b: string)
    ensures NormalizeDate(o, a).None? || NormalizeDate(o, b).None? ==> DateScore(o, a, b) == 0.0
    ensures NormalizeDate(o, a).Some? && NormalizeDate(o, b).Some? ==>
      DateScore(o, a, b) == DateTier(Abs(NormalizeDate(o, a).value - NormalizeDate(o, b).value))
    ensures DateScore(o, a, b) == DateScore(o, b, a)
  {
  }

  /** A farther date never scores higher against the same query date. */
  lemma DateScoreMonotone(o: Oracles, q: string, near: string, far: string)
    requires NormalizeDate(o, q).Some? && NormalizeDate(o, near).Some? && NormalizeDate(o, far).Some?
    requires Abs(NormalizeDate(o, q).value - NormalizeDate(o, near).value)
          <= Abs(NormalizeDate(o, q).value - NormalizeDate(o, far).value)
    ensures DateScore(o, q, far) <= DateScore(o, q, near)
  {
    DateScoreSpec(o, q, near);
    DateScoreSpec(o, q, far);
    DateTierMonotone(Abs(NormalizeDate(o, q).value - NormalizeDate(o, near).value),
                     Abs(NormalizeDate(o, q).value - NormalizeDate(o, far).value));
  }

  // ---------------------------------------------------------------------
  // E-mail addresses and phone numbers

  /** _normalize_email: the validator's normalised address, as (local part,
      domain). */
  function NormalizeEmail(o: Oracles, s: string): Option<(string, string)>
  {
    if s == "" then None else o.validateEmail(s)
  }

  /** _calculate_email_score: 100 for the same normalised address, otherwise
      40% local-part ratio and 60% domain ratio. */
  function EmailScore(o: Oracles, queryEmail: string, recordEmail: string): real
  {
    match (NormalizeEmail(o, queryEmail), NormalizeEmail(o, recordEmail))
    case (Some((ql, qd)), Some((rl, rd))) =>
      if (ql, qd) == (rl, rd) then 100.0
      else o.ratio(ql, rl) * 0.4 + o.ratio(qd, rd) * 0.6
    case _ => 0.0
  }

  /** _normalize_phone: `None` for empty input or no valid number. */
  function NormalizePhone(o: Oracles, s: string): Option<string>
  {
    if s == "" then None else o.parsePhone(s)
  }

  function LastSeven(s: string): string
    requires |s| >= 7
  {
    s[|s| - 7..]
  }

  /** _calculate_phone_score: 100 for the same normalised number, otherwise
      the best of two fuzzy ratios and a 90 bonus when the last seven
      characters agree. */
  function PhoneScore(o: Oracles, queryPhone: string, recordPhone: string): real
  {
    match (NormalizePhone(o, queryPhone), NormalizePhone(o, recordPhone))
    case (Some(q), Some(r)) =>
      if q == "" || r == "" then 0.0
      else if q == r then 100.0
      else
        var best := Max(o.ratio(q, r), o.partialRatio(q, r));
        if |q| >= 7 && |r| >= 7 && LastSeven(q) == LastSeven(r) then Max(best, 90.0) else best
    case _ => 0.0
  }

  /** Numbers that agree in their last seven characters score at least 90. */
  lemma PhoneLastSevenBonus(o: Oracles, a: string, b: string)
    requires NormalizePhone(o, a).Some? && NormalizePhone(o, b).Some?
    requires |NormalizePhone(o, a).value| >= 7 && |NormalizePhone(o, b).value| >= 7
    requires LastSeven(NormalizePhone(o, a).value) == LastSeven(NormalizePhone(o, b).value)
    ensures PhoneScore(o, a, b) >= 90.0
  {
  }

  // ---------------------------------------------------------------------
  // Names, scored

  /** _calculate_name_score: 0 if either name normalises to nothing,
      otherwise the best of five fuzzy measures on the normalised names. */
  function NameScore(o: Oracles, queryName: string, recordName: string): real
  {
    var q := NormalizeName(queryName);
    var r := NormalizeName(recordName);
    if q == "" || r == "" then 0.0
    else
      Max(Max(Max(Max(o.ratio(q, r), o.tokenSortRatio(q, r)), o.tokenSetRatio(q, r)),
              o.partialRatio(q, r)),
          o.sequenceRatio(q, r) * 100.0)
  }

  /** With libraries that keep their promised ranges, every field scorer
      returns a value in [0, 100]. */
  lemma ScoresInRange(o: Oracles, a: string, b: string)
    requires ValidOracles(o)
    ensures InScoreRange(NameScore(o, a, b))
    ensures InScoreRange(IdScore(o, a, b))
    ensures InScoreRange(DateScore(o, a, b))
    ensures InScoreRange(EmailScore(o, a, b))
    ensures InScoreRange(PhoneScore(o, a, b))
  {
    NameScoreInRange(o, a, b);
    IdScoreInRange(o, a, b);
    DateScoreInRange(o, a, b);
    EmailScoreInRange(o, a, b);
    PhoneScoreInRange(o, a, b);
  }

  lemma DateScoreInRange(o: Oracles, a: string, b: string)
    ensures InScoreRange(DateScore(o, a, b))
  {
    DateScoreSpec(o, a, b);
  }

  lemma PhoneScoreInRange(o: Oracles, a: string, b: string)
    requires ValidOracles(o)
    ensures InScoreRange(PhoneScore(o, a, b))
  {
    match (NormalizePhone(o, a), NormalizePhone(o, b))
    case (Some(q), Some(r)) =>
      assert 0.0 <= o.ratio(q, r) <= 100.0;
      assert 0.0 <= o.partialRatio(q, r) <= 100.0;
    case _ =>
  }

  lemma NameScoreInRange(o: Oracles, a: string, b: string)
    requires ValidOracles(o)
    ensures InScoreRange(NameScore(o, a, b))
  {
    var q, r := NormalizeName(a), NormalizeName(b);
    assert 0.0 <= o.sequenceRatio(q, r) <= 1.0;
    assert 0.0 <= o.ratio(q, r) <= 100.0;
    assert 0.0 <= o.tokenSortRatio(q, r) <= 100.0;
    assert 0.0 <= o.tokenSetRatio(q, r) <= 100.0;
    assert 0.0 <= o.partialRatio(q, r) <= 100.0;
  }

  lemma IdScoreInRange(o: Oracles, a: string, b: string)
    requires ValidOracles(o)
    ensures InScoreRange(IdScore(o, a, b))
  {
    var q, r := NormalizeId(a), NormalizeId(b);
    assert 0.0 <= o.sequenceRatio(q, r) <= 1.0;
    assert 0.0 <= o.ratio(q, r) <= 100.0;
    assert 0.0 <= o.tokenSortRatio(q, r) <= 100.0;
    assert 0.0 <= o.partialRatio(q, r) <= 100.0;
  }

  lemma EmailScoreInRange(o: Oracles, a: string, b: string)
    requires ValidOracles(o)
    ensures InScoreRange(EmailScore(o, a, b))
  {
    match (NormalizeEmail(o, a), NormalizeEmail(o, b))
    case (Some((ql, qd)), Some((rl, rd))) =>
      assert 0.0 <= o.ratio(ql, rl) <= 100.0;
      assert 0.0 <= o.ratio(qd, rd) <= 100.0;
    case _ =>
  }
}
