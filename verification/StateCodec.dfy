/**
  The signed state of a login: five printers, one parser that reads from the right. The MAC is any
  function without a dot in its values, base64 any pair of functions where decoding undoes encoding,
  and time is whole seconds.
*/
module StateCodec {
  import opened Common
  import opened Strconv

  const MAX_AGE := 600
  const MAX_SKEW := 60

  datatype Claims = Claims(serviceId: string, nonce: string, admin: bool, idp: string, link: int, github: bool)

  // ---- cutting strings ----------------------------------------------------------------------------

  datatype Cut = NoCut | Cut(before: string, after: string)

  /** What stands before and after the last occurrence of c (strings.LastIndex). */
  function CutLast(s: string, c: char): Cut {
    if s == "" then NoCut
    else if s[|s| - 1] == c then Cut(s[..|s| - 1], "")
    else
      match CutLast(s[..|s| - 1], c)
      case NoCut => NoCut
      case Cut(before, after) => Cut(before, after + [s[|s| - 1]])
  }

  lemma {:induction false} CutLastFinds(before: string, c: char, after: string)
    requires c !in after
    ensures CutLast(before + [c] + after, c) == Cut(before, after)
  {
    var s := before + [c] + after;
    if after == "" {
      assert s[..|s| - 1] == before;
    } else {
      var shorter := after[..|after| - 1];
      assert s[..|s| - 1] == before + [c] + shorter;
      CutLastFinds(before, c, shorter);
      assert after == shorter + [after[|after| - 1]];
    }
  }

  lemma {:induction false} CutLastCuts(s: string, c: char)
    ensures CutLast(s, c).NoCut? <==> c !in s
    ensures CutLast(s, c).Cut? ==> s == CutLast(s, c).before + [c] + CutLast(s, c).after && c !in CutLast(s, c).after
  {
    if s != "" && s[|s| - 1] != c {
      CutLastCuts(s[..|s| - 1], c);
      assert s == s[..|s| - 1] + [s[|s| - 1]];
    }
  }

  function Count(s: string, c: char): nat {
    if s == "" then 0 else (if s[0] == c then 1 else 0) + Count(s[1..], c)
  }

  lemma {:induction false} CountConcat(s: string, t: string, c: char)
    ensures Count(s + t, c) == Count(s, c) + Count(t, c)
  {
    if s == "" {
      assert s + t == t;
    } else {
      assert (s + t)[1..] == s[1..] + t;
      CountConcat(s[1..], t, c);
    }
  }

  /** strings.CutSuffix. */
  function CutSuffix(s: string, t: string): Option<string> {
    if |t| <= |s| && s[|s| - |t|..] == t then Some(s[..|s| - |t|]) else None
  }

  /** A suffix that is a colon and a word is there exactly when the word is the last segment. */
  lemma CutSuffixIsSegment(before: string, after: string, word: string)
    requires ':' !in after && ':' !in word
    ensures CutSuffix(before + ":" + after, ":" + word) == if after == word then Some(before) else None
  {
    var s, t := before + ":" + after, ":" + word;
    CutLastFinds(before, ':', after);
    if after == word {
      assert s[|s| - |t|..] == t && s[..|s| - |t|] == before;
    } else if CutSuffix(s, t).Some? {
      var x := s[..|s| - |t|];
      assert s == x + s[|s| - |t|..] == x + ":" + word;
      CutLastFinds(x, ':', word);
    }
  }

  lemma PrefixSplits(p: string, s: string)
    requires p <= s
    ensures s == p + s[|p|..]
  {
  }

  // ---- the signers --------------------------------------------------------------------------------

  /** The regular expression [a-z0-9-]{1,32} over the whole slug. */
  predicate SlugOk(slug: string) {
    1 <= |slug| <= 32 && forall i :: 0 <= i < |slug| ==> 'a' <= slug[i] <= 'z' || IsDigit(slug[i]) || slug[i] == '-'
  }

  const SLUG_LETTERS := "abcdefghijklmnopqrstuvwxyz"
  const SLUG_OTHERS := "0123456789-"

  /** One to 32 characters of a fixed alphabet. */
  lemma SlugExactly(slug: string)
    ensures SlugOk(slug) <==> 1 <= |slug| <= 32 && forall c :: c in slug ==> c in SLUG_LETTERS || c in SLUG_OTHERS
  {
    forall c ensures c in SLUG_LETTERS <==> 'a' <= c <= 'z' { LetterHeld(c); }
    forall c ensures c in SLUG_OTHERS <==> IsDigit(c) || c == '-' { OtherHeld(c); }
    if !SlugOk(slug) && 1 <= |slug| <= 32 {
      var i :| 0 <= i < |slug| && !('a' <= slug[i] <= 'z' || IsDigit(slug[i]) || slug[i] == '-');
      assert slug[i] in slug;
    }
  }

  lemma LetterHeld(c: char)
    ensures c in SLUG_LETTERS <==> 'a' <= c <= 'z'
  {
    if 'a' <= c <= 'z' { assert SLUG_LETTERS[c as int - 'a' as int] == c; }
  }

  lemma OtherHeld(c: char)
    ensures c in SLUG_OTHERS <==> IsDigit(c) || c == '-'
  {
    if IsDigit(c) { assert SLUG_OTHERS[c as int - '0' as int] == c; } else { assert SLUG_OTHERS[10] == '-'; }
  }

  function Base(serviceId: string, nonce: string, iat: string): string {
    serviceId + ":" + nonce + ":" + iat
  }

  function SignState(mac: string -> string, encode: string -> string, payload: string): string {
    encode(payload + "." + mac(payload))
  }

  function PlainPayload(serviceId: string, nonce: string, now: int): string {
    Base(serviceId, nonce, FormatInt(now))
  }

  function AdminPayload(serviceId: string, nonce: string, now: int): string {
    Base(serviceId, nonce, FormatInt(now)) + ":" + "admin"
  }

  function IdpPayload(serviceId: string, nonce: string, slug: string, now: int): string {
    Base(serviceId, nonce, FormatInt(now)) + ":" + ("idp=" + slug)
  }

  function LinkPayload(serviceId: string, nonce: string, slug: string, invite: int, now: int): string {
    Base(serviceId, nonce, FormatInt(now)) + ":" + ("idp=" + slug) + ":" + ("link=" + FormatInt(invite))
  }

  function GitHubPayload(serviceId: string, nonce: string, now: int): string {
    Base(serviceId, nonce, FormatInt(now)) + ":" + "github"
  }

  lemma SuffixSpelt(base: string, key: string, value: string)
    ensures base + ":" + (key + value) == base + (":" + key) + value
  {
  }

  /** The five layouts as one text each. */
  lemma PayloadsSpelled(serviceId: string, nonce: string, slug: string, invite: int, now: int)
    ensures var base := serviceId + ":" + nonce + ":" + FormatInt(now);
      && PlainPayload(serviceId, nonce, now) == base
      && AdminPayload(serviceId, nonce, now) == base + ":admin"
      && IdpPayload(serviceId, nonce, slug, now) == base + ":idp=" + slug
      && LinkPayload(serviceId, nonce, slug, invite, now) == base + ":idp=" + slug + ":link=" + FormatInt(invite)
      && GitHubPayload(serviceId, nonce, now) == base + ":github"
  {
    var base := Base(serviceId, nonce, FormatInt(now));
    assert ":" + "admin" == ":admin" && ":" + "github" == ":github";
    assert ":" + "idp=" == ":idp=" && ":" + "link=" == ":link=";
    SuffixSpelt(base, "admin", "");
    SuffixSpelt(base, "github", "");
    SuffixSpelt(base, "idp=", slug);
    SuffixSpelt(base + ":idp=" + slug, "link=", FormatInt(invite));
    assert "admin" + "" == "admin" && "github" + "" == "github";
    assert base + ":admin" + "" == base + ":admin" && base + ":github" + "" == base + ":github";
  }

  // ---- the parser ---------------------------------------------------------------------------------

  /** The payload without its link suffix; None rejects the state. */
  function ReadLink(payload: string): Option<(string, int)> {
    match CutLast(payload, ':')
    case NoCut => Some((payload, 0))
    case Cut(rest, last) =>
      if !("link=" <= last) then Some((payload, 0))
      else
        var digits := last[5..];
        var id := ParseInt(digits);
        if id.None? || id.value <= 0 || FormatInt(id.value) != digits then None
        else
          var before := CutLast(rest, ':');
          if before.NoCut? || !("idp=" <= before.after) then None else Some((rest, id.value))
  }

  datatype Purpose = Purpose(rest: string, idp: string, admin: bool, github: bool)

  /** The payload without the suffix that names its purpose. */
  function ReadPurpose(payload: string): Option<Purpose> {
    var cut := CutLast(payload, ':');
    if cut.Cut? && "idp=" <= cut.after then
      if SlugOk(cut.after[4..]) then Some(Purpose(cut.before, cut.after[4..], false, false)) else None
    else
      var admin, github := CutSuffix(payload, ":" + "admin"), CutSuffix(payload, ":" + "github");
      if admin.Some? && Count(admin.value, ':') >= 2 then Some(Purpose(admin.value, "", true, false))
      else if github.Some? && Count(github.value, ':') >= 2 then Some(Purpose(github.value, "", false, true))
      else Some(Purpose(payload, "", false, false))
  }

  predicate InWindow(iat: int, now: int) {
    -MAX_SKEW <= now - iat <= MAX_AGE
  }

  datatype Stamped = Stamped(serviceId: string, nonce: string, iat: string)

  /** service:nonce:iat from the right; the service id keeps any colons of its own. */
  function ReadBase(payload: string, now: int): Option<Stamped> {
    var last := CutLast(payload, ':');
    if last.NoCut? || ParseInt(last.after).None? then None
    else
      var first := CutLast(last.before, ':');
      if first.NoCut? || !InWindow(ParseInt(last.after).value, now) then None
      else Some(Stamped(first.before, first.after, last.after))
  }

  function ParsePayload(payload: string, now: int): Option<Claims> {
    match ReadLink(payload)
    case None => None
    case Some(linked) =>
      match ReadPurpose(linked.0)
      case None => None
      case Some(p) =>
        match ReadBase(p.rest, now)
        case None => None
        case Some(b) => Some(Claims(b.serviceId, b.nonce, p.admin, p.idp, linked.1, p.github))
  }

  function ParseState(mac: string -> string, decode: string -> Option<string>, state: string, now: int):
      Option<Claims> {
    match decode(state)
    case None => None
    case Some(raw) =>
      match CutLast(raw, '.')
      case NoCut => None
      case Cut(payload, got) => if got != mac(payload) then None else ParsePayload(payload, now)
  }

  function VerifyState(mac: string -> string, decode: string -> Option<string>, state: string, now: int):
      Option<string> {
    match ParseState(mac, decode, state, now)
    case None => None
    case Some(c) => if c.admin || c.github || c.idp != "" || c.link != 0 then None else Some(c.serviceId)
  }

  // ---- printing what was parsed -------------------------------------------------------------------

  function Print(c: Claims, iat: string): string {
    var base := Base(c.serviceId, c.nonce, iat);
    if c.link != 0 then base + ":" + ("idp=" + c.idp) + ":" + ("link=" + FormatInt(c.link))
    else if c.idp != "" then base + ":" + ("idp=" + c.idp)
    else if c.admin then base + ":" + "admin"
    else if c.github then base + ":" + "github"
    else base
  }

  /** One purpose: a plain login, admin, GitHub, a provider, or a provider with an invitation. */
  predicate OnePurpose(c: Claims) {
    && (c.idp != "" ==> SlugOk(c.idp) && !c.admin && !c.github)
    && (c.link != 0 ==> c.idp != "" && 0 < c.link <= MAX_INT64)
    && !(c.admin && c.github)
  }

  // ---- round trip ---------------------------------------------------------------------------------

  lemma SlugHasNoColon(slug: string)
    requires SlugOk(slug)
    ensures ':' !in "idp=" + slug
  {
  }

  lemma SegmentCut(before: string, segment: string)
    requires ':' !in segment
    ensures CutLast(before + ":" + segment, ':') == Cut(before, segment)
  {
    CutLastFinds(before, ':', segment);
  }

  /** The two suffix readers, as functions of the last segment. */
  function LinkOf(before: string, last: string): Option<(string, int)> {
    if !("link=" <= last) then Some((before + ":" + last, 0))
    else
      var id := ParseInt(last[5..]);
      if id.None? || id.value <= 0 || FormatInt(id.value) != last[5..] then None
      else if CutLast(before, ':').NoCut? || !("idp=" <= CutLast(before, ':').after) then None
      else Some((before, id.value))
  }

  function PurposeOf(before: string, last: string): Option<Purpose> {
    if "idp=" <= last then if SlugOk(last[4..]) then Some(Purpose(before, last[4..], false, false)) else None
    else if last == "admin" && Count(before, ':') >= 2 then Some(Purpose(before, "", true, false))
    else if last == "github" && Count(before, ':') >= 2 then Some(Purpose(before, "", false, true))
    else Some(Purpose(before + ":" + last, "", false, false))
  }

  lemma ReadBySegment(before: string, last: string)
    requires ':' !in last
    ensures ReadLink(before + ":" + last) == LinkOf(before, last)
    ensures ReadPurpose(before + ":" + last) == PurposeOf(before, last)
  {
    SegmentCut(before, last);
    CutSuffixIsSegment(before, last, "admin");
    CutSuffixIsSegment(before, last, "github");
  }

  lemma BaseHasTwoColons(serviceId: string, nonce: string, iat: string)
    ensures Count(Base(serviceId, nonce, iat), ':') >= 2
  {
    CountConcat(serviceId + ":" + nonce + ":", iat, ':');
    CountConcat(serviceId + ":" + nonce, ":", ':');
    CountConcat(serviceId + ":", nonce, ':');
    CountConcat(serviceId, ":", ':');
  }

  lemma LinkSegment(rest: string, slug: string, link: int)
    requires SlugOk(slug) && 0 < link <= MAX_INT64
    ensures var before := rest + ":" + ("idp=" + slug);
      LinkOf(before, "link=" + FormatInt(link)) == Some((before, link))
    ensures ':' !in "link=" + FormatInt(link)
  {
    FormatIntHasNo(link, ':');
    ParseFormat(link);
    assert ("link=" + FormatInt(link))[5..] == FormatInt(link);
    SlugHasNoColon(slug);
    SegmentCut(rest, "idp=" + slug);
  }

  lemma IdpSegment(rest: string, slug: string)
    requires SlugOk(slug)
    ensures LinkOf(rest, "idp=" + slug) == Some((rest + ":" + ("idp=" + slug), 0))
    ensures PurposeOf(rest, "idp=" + slug) == Some(Purpose(rest, slug, false, false))
    ensures ':' !in "idp=" + slug
  {
    SlugHasNoColon(slug);
    assert ("idp=" + slug)[4..] == slug;
    assert ("idp=" + slug)[0] == 'i' && "link="[0] == 'l';
  }

  /** A text that ParseInt takes is a sign or a digit followed by digits. */
  lemma IntegerText(text: string)
    requires ParseInt(text).Some?
    ensures text != "" && (IsDigit(text[0]) || text[0] == '-' || text[0] == '+') && ':' !in text
  {
    var digits := if text[0] == '-' || text[0] == '+' then text[1..] else text;
    assert AllDigits(digits);
    forall i | 0 <= i < |text| ensures text[i] != ':' {
      if digits != text && i > 0 { assert text[i] == digits[i - 1]; }
    }
  }

  lemma NumberSegment(before: string, text: string)
    requires ParseInt(text).Some?
    ensures LinkOf(before, text) == Some((before + ":" + text, 0))
    ensures PurposeOf(before, text) == Some(Purpose(before + ":" + text, "", false, false))
  {
    IntegerText(text);
    assert "link="[0] == 'l' && "idp="[0] == 'i' && "admin"[0] == 'a' && "github"[0] == 'g';
  }

  lemma BaseReadsBack(serviceId: string, nonce: string, iat: string, now: int)
    requires ParseInt(iat).Some?
    ensures ReadBase(Base(serviceId, nonce, iat), now) == Some(Stamped(serviceId, nonce, iat))
            <==> ':' !in nonce && InWindow(ParseInt(iat).value, now)
    ensures InWindow(ParseInt(iat).value, now) && ':' in nonce ==>
              var b := ReadBase(Base(serviceId, nonce, iat), now); b.None? || b.value.nonce != nonce
    ensures !InWindow(ParseInt(iat).value, now) ==> ReadBase(Base(serviceId, nonce, iat), now).None?
  {
    IntegerText(iat);
    SegmentCut(serviceId + ":" + nonce, iat);
    if ':' !in nonce {
      SegmentCut(serviceId, nonce);
    } else {
      CutLastCuts(serviceId + ":" + nonce, ':');
    }
  }

  lemma SuffixReadsBack(c: Claims, iat: string)
    requires OnePurpose(c) && ParseInt(iat).Some?
    ensures ReadLink(Print(c, iat)) == Some((Print(c.(link := 0), iat), c.link))
    ensures ReadPurpose(Print(c.(link := 0), iat))
            == Some(Purpose(Base(c.serviceId, c.nonce, iat), c.idp, c.admin, c.github))
  {
    var base := Base(c.serviceId, c.nonce, iat);
    if c.idp != "" {
      IdpSegment(base, c.idp);
      ReadBySegment(base, "idp=" + c.idp);
      if c.link != 0 {
        LinkSegment(base, c.idp, c.link);
        ReadBySegment(base + ":" + ("idp=" + c.idp), "link=" + FormatInt(c.link));
      }
    } else if c.admin || c.github {
      BaseHasTwoColons(c.serviceId, c.nonce, iat);
      ReadBySegment(base, if c.admin then "admin" else "github");
    } else {
      IntegerText(iat);
      NumberSegment(c.serviceId + ":" + c.nonce, iat);
      ReadBySegment(c.serviceId + ":" + c.nonce, iat);
    }
  }

  /**
    Whatever the service id, a printed payload reads back as exactly its claims if the nonce has no
    colon and the time is at most ten minutes past and one minute ahead; outside that interval no claims come back.
  */
  lemma ParsePrint(c: Claims, iat: string, now: int)
    requires OnePurpose(c) && ParseInt(iat).Some?
    ensures ParsePayload(Print(c, iat), now) == Some(c)
            <==> ':' !in c.nonce && -60 <= now - ParseInt(iat).value <= 600
    ensures !(-60 <= now - ParseInt(iat).value <= 600) ==> ParsePayload(Print(c, iat), now).None?
  {
    SuffixReadsBack(c, iat);
    BaseReadsBack(c.serviceId, c.nonce, iat, now);
  }

  // ---- what is accepted was printed ---------------------------------------------------------------

  lemma ReadLinkPrints(payload: string)
    requires ReadLink(payload).Some?
    ensures var r := ReadLink(payload).value;
      && 0 <= r.1 <= MAX_INT64
      && (r.1 == 0 ==> r.0 == payload)
      && (r.1 != 0 ==> payload == r.0 + ":" + ("link=" + FormatInt(r.1)) && NamesProvider(r.0))
  {
    CutLastCuts(payload, ':');
    var cut := CutLast(payload, ':');
    if cut.Cut? && "link=" <= cut.after {
      PrefixSplits("link=", cut.after);
    }
  }

  /** The last segment names a provider. */
  predicate NamesProvider(payload: string) {
    CutLast(payload, ':').Cut? && "idp=" <= CutLast(payload, ':').after
  }

  predicate PurposePrints(payload: string, p: Purpose) {
    if p.idp != "" then SlugOk(p.idp) && !p.admin && !p.github && payload == p.rest + ":" + ("idp=" + p.idp)
    else if p.admin then !p.github && payload == p.rest + ":" + "admin"
    else if p.github then payload == p.rest + ":" + "github"
    else payload == p.rest
  }

  lemma PurposeOfPrints(before: string, last: string)
    requires PurposeOf(before, last).Some?
    ensures PurposePrints(before + ":" + last, PurposeOf(before, last).value)
    ensures "idp=" <= last ==> PurposeOf(before, last).value.idp != ""
  {
    if "idp=" <= last { PrefixSplits("idp=", last); }
  }

  lemma ReadPurposePrints(payload: string)
    requires ReadPurpose(payload).Some?
    ensures PurposePrints(payload, ReadPurpose(payload).value)
    ensures NamesProvider(payload) ==> ReadPurpose(payload).value.idp != ""
  {
    CutLastCuts(payload, ':');
    match CutLast(payload, ':')
    case Cut(before, last) =>
      ReadBySegment(before, last);
      PurposeOfPrints(before, last);
    case NoCut =>
      SuffixBringsColon(payload, "admin");
      SuffixBringsColon(payload, "github");
  }

  lemma SuffixBringsColon(payload: string, word: string)
    ensures CutSuffix(payload, ":" + word).Some? ==> ':' in payload
  {
    var t := ":" + word;
    if CutSuffix(payload, t).Some? {
      assert payload[|payload| - |t|] == payload[|payload| - |t|..][0] == ':';
    }
  }

  lemma ReadBasePrints(payload: string, now: int)
    requires ReadBase(payload, now).Some?
    ensures var b := ReadBase(payload, now).value;
      && payload == Base(b.serviceId, b.nonce, b.iat) && ':' !in b.nonce
      && ParseInt(b.iat).Some? && InWindow(ParseInt(b.iat).value, now)
  {
    CutLastCuts(payload, ':');
    CutLastCuts(CutLast(payload, ':').before, ':');
  }

  /** The time as it stands in an accepted payload. */
  ghost predicate PrintedWith(payload: string, c: Claims, iat: string, now: int) {
    payload == Print(c, iat) && ParseInt(iat).Some? && -60 <= now - ParseInt(iat).value <= 600
  }

  /**
    An accepted payload is the print of its claims, which name one purpose; with the time spelt the way
    FormatInt spells it, it is the very payload a signer makes.
  */
  lemma AcceptedIsPrinted(payload: string, now: int) returns (iat: string)
    requires ParsePayload(payload, now).Some?
    ensures var c := ParsePayload(payload, now).value;
      OnePurpose(c) && ':' !in c.nonce && PrintedWith(payload, c, iat, now)
  {
    var linked := ReadLink(payload).value;
    var p := ReadPurpose(linked.0).value;
    ReadLinkPrints(payload);
    ReadPurposePrints(linked.0);
    ReadBasePrints(p.rest, now);
    iat := ReadBase(p.rest, now).value.iat;
  }

  /** The accepted payloads are the prints of claims with one purpose, and nothing else. */
  lemma AcceptedExactly(payload: string, c: Claims, now: int)
    ensures ParsePayload(payload, now) == Some(c)
            <==> OnePurpose(c) && ':' !in c.nonce && exists iat :: PrintedWith(payload, c, iat, now)
  {
    if ParsePayload(payload, now) == Some(c) {
      var iat := AcceptedIsPrinted(payload, now);
      assert PrintedWith(payload, c, iat, now);
    }
    if OnePurpose(c) && ':' !in c.nonce {
      if iat :| PrintedWith(payload, c, iat, now) {
        ParsePrint(c, iat, now);
      }
    }
  }

  /** Two printed payloads are the same only for the same claims and time: the five purposes never meet. */
  lemma PurposesDisjoint(c: Claims, iat: string, d: Claims, iat': string)
    requires OnePurpose(c) && ':' !in c.nonce && ParseInt(iat).Some?
    requires OnePurpose(d) && ':' !in d.nonce && ParseInt(iat').Some?
    requires Print(c, iat) == Print(d, iat')
    ensures c == d && iat == iat'
  {
    SuffixReadsBack(c, iat);
    SuffixReadsBack(d, iat');
    BaseReadsBack(c.serviceId, c.nonce, iat, ParseInt(iat).value);
    BaseReadsBack(d.serviceId, d.nonce, iat', ParseInt(iat').value);
  }

  // ---- the signed state ---------------------------------------------------------------------------

  ghost predicate MacOk(mac: string -> string) {
    forall payload :: '.' !in mac(payload)
  }

  ghost predicate DecodesEncoded(encode: string -> string, decode: string -> Option<string>) {
    forall raw :: decode(encode(raw)) == Some(raw)
  }

  lemma SignedParses(mac: string -> string, encode: string -> string, decode: string -> Option<string>,
                     payload: string, now: int)
    requires MacOk(mac) && DecodesEncoded(encode, decode)
    ensures ParseState(mac, decode, SignState(mac, encode, payload), now) == ParsePayload(payload, now)
  {
    CutLastFinds(payload, '.', mac(payload));
    var raw := payload + "." + mac(payload);
    assert decode(encode(raw)) == Some(raw);
  }

  /** Every signer's state reads back as that signer's claims, for ten minutes and no longer. */
  lemma SignersReadBack(mac: string -> string, encode: string -> string, decode: string -> Option<string>,
                        serviceId: string, nonce: string, slug: string, invite: int, signed: int, now: int)
    requires MacOk(mac) && DecodesEncoded(encode, decode)
    requires ':' !in nonce && SlugOk(slug) && 0 < invite <= MAX_INT64
    requires MIN_INT64 <= signed <= MAX_INT64
    ensures ParseState(mac, decode, SignState(mac, encode, PlainPayload(serviceId, nonce, signed)), now)
            == if -60 <= now - signed <= 600 then Some(Claims(serviceId, nonce, false, "", 0, false)) else None
    ensures ParseState(mac, decode, SignState(mac, encode, AdminPayload(serviceId, nonce, signed)), now)
            == if -60 <= now - signed <= 600 then Some(Claims(serviceId, nonce, true, "", 0, false)) else None
    ensures ParseState(mac, decode, SignState(mac, encode, IdpPayload(serviceId, nonce, slug, signed)), now)
            == if -60 <= now - signed <= 600 then Some(Claims(serviceId, nonce, false, slug, 0, false)) else None
    ensures ParseState(mac, decode, SignState(mac, encode, LinkPayload(serviceId, nonce, slug, invite, signed)), now)
            == if -60 <= now - signed <= 600 then Some(Claims(serviceId, nonce, false, slug, invite, false)) else None
    ensures ParseState(mac, decode, SignState(mac, encode, GitHubPayload(serviceId, nonce, signed)), now)
            == if -60 <= now - signed <= 600 then Some(Claims(serviceId, nonce, false, "", 0, true)) else None
  {
    SignerReadsBack(mac, encode, decode, Claims(serviceId, nonce, false, "", 0, false), signed, now);
    SignerReadsBack(mac, encode, decode, Claims(serviceId, nonce, true, "", 0, false), signed, now);
    SignerReadsBack(mac, encode, decode, Claims(serviceId, nonce, false, slug, 0, false), signed, now);
    SignerReadsBack(mac, encode, decode, Claims(serviceId, nonce, false, slug, invite, false), signed, now);
    SignerReadsBack(mac, encode, decode, Claims(serviceId, nonce, false, "", 0, true), signed, now);
    PayloadsAsPrinted(serviceId, nonce, slug, invite, signed);
  }

  lemma SignerReadsBack(mac: string -> string, encode: string -> string, decode: string -> Option<string>,
                        c: Claims, signed: int, now: int)
    requires MacOk(mac) && DecodesEncoded(encode, decode) && OnePurpose(c) && ':' !in c.nonce
    requires MIN_INT64 <= signed <= MAX_INT64
    ensures ParseState(mac, decode, SignState(mac, encode, Print(c, FormatInt(signed))), now)
            == if -60 <= now - signed <= 600 then Some(c) else None
  {
    SignedParses(mac, encode, decode, Print(c, FormatInt(signed)), now);
    ParseFormat(signed);
    ParsePrint(c, FormatInt(signed), now);
  }

  lemma PayloadsAsPrinted(serviceId: string, nonce: string, slug: string, invite: int, now: int)
    requires SlugOk(slug) && 0 < invite
    ensures PlainPayload(serviceId, nonce, now) == Print(Claims(serviceId, nonce, false, "", 0, false), FormatInt(now))
    ensures AdminPayload(serviceId, nonce, now) == Print(Claims(serviceId, nonce, true, "", 0, false), FormatInt(now))
    ensures IdpPayload(serviceId, nonce, slug, now)
            == Print(Claims(serviceId, nonce, false, slug, 0, false), FormatInt(now))
    ensures LinkPayload(serviceId, nonce, slug, invite, now)
            == Print(Claims(serviceId, nonce, false, slug, invite, false), FormatInt(now))
    ensures GitHubPayload(serviceId, nonce, now) == Print(Claims(serviceId, nonce, false, "", 0, true), FormatInt(now))
  {
  }

  /** A state that carries the MAC of service:nonce:time, the time at most ten minutes past and one minute ahead. */
  ghost predicate PlainState(mac: string -> string, decode: string -> Option<string>, state: string,
                             serviceId: string, nonce: string, iat: string, now: int) {
    var payload := Base(serviceId, nonce, iat);
    && decode(state) == Some(payload + "." + mac(payload))
    && ':' !in nonce && ParseInt(iat).Some? && -60 <= now - ParseInt(iat).value <= 600
  }

  /** A plain state logs in at its service for ten minutes after it was signed, and never again. */
  lemma PlainStateExpires(mac: string -> string, encode: string -> string, decode: string -> Option<string>,
                          serviceId: string, nonce: string, signed: int, now: int)
    requires MacOk(mac) && DecodesEncoded(encode, decode)
    requires ':' !in nonce && MIN_INT64 <= signed <= MAX_INT64
    ensures VerifyState(mac, decode, SignState(mac, encode, PlainPayload(serviceId, nonce, signed)), now)
            == if -60 <= now - signed <= 600 then Some(serviceId) else None
  {
    SignerReadsBack(mac, encode, decode, Claims(serviceId, nonce, false, "", 0, false), signed, now);
  }

  /** VerifyState takes exactly the plain states; no other purpose passes. */
  lemma VerifyTakesPlainOnly(mac: string -> string, decode: string -> Option<string>, state: string,
                             serviceId: string, now: int)
    requires MacOk(mac)
    ensures VerifyState(mac, decode, state, now) == Some(serviceId)
            <==> exists nonce, iat :: PlainState(mac, decode, state, serviceId, nonce, iat, now)
  {
    if VerifyState(mac, decode, state, now) == Some(serviceId) {
      var raw := decode(state).value;
      CutLastCuts(raw, '.');
      var payload := CutLast(raw, '.').before;
      var iat := AcceptedIsPrinted(payload, now);
      var c := ParsePayload(payload, now).value;
      assert payload == Base(c.serviceId, c.nonce, iat);
      assert PlainState(mac, decode, state, serviceId, c.nonce, iat, now);
    }
    if nonce, iat :| PlainState(mac, decode, state, serviceId, nonce, iat, now) {
      var payload := Base(serviceId, nonce, iat);
      CutLastFinds(payload, '.', mac(payload));
      ParsePrint(Claims(serviceId, nonce, false, "", 0, false), iat, now);
    }
  }
}
