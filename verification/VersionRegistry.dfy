/** The version registry: names packed into 32-byte words, and the history read from the registry's events. */
module VersionRegistries {
  import opened Prelude

  /** A string, as its UTF-8 bytes. */
  type Text = seq<Byte>

  // ---- Codec ----

  function HexDigit(n: nat): char
    requires n < 16
  {
    "0123456789abcdef"[n]
  }

  function DigitValue(c: char): Option<nat> {
    if '0' <= c <= '9' then Some((c - '0') as nat)
    else if 'a' <= c <= 'f' then Some((c - 'a') as nat + 10)
    else if 'A' <= c <= 'F' then Some((c - 'A') as nat + 10)
    else None
  }

  function ByteDigits(b: Byte): string {
    [HexDigit(b as nat / 16), HexDigit(b as nat % 16)]
  }

  /** `Buffer.toString('hex')`. */
  function HexOf(bytes: seq<Byte>): string {
    if bytes == [] then "" else ByteDigits(bytes[0]) + HexOf(bytes[1..])
  }

  /** `Buffer.from(s, 'hex')`: whole pairs of digits, up to the first that is not one. */
  function DecodeHex(s: string): seq<Byte> {
    if |s| < 2 || DigitValue(s[0]).None? || DigitValue(s[1]).None? then [] else
      [(DigitValue(s[0]).value * 16 + DigitValue(s[1]).value) as Byte] + DecodeHex(s[2..])
  }

  function Repeated<T>(n: nat, x: T): seq<T> {
    seq(n, _ => x)
  }

  function PadEnd(s: string, width: nat, c: char): string {
    if width <= |s| then s else s + Repeated(width - |s|, c)
  }

  function String32(text: Text): string {
    PadEnd("0x" + HexOf(text), 66, '0')
  }

  function WithoutPrefix(s: string): string {
    if "0x" <= s then s[2..] else s
  }

  /** Matched by `(00)*`. */
  predicate ZeroPairs(s: string) {
    |s| % 2 == 0 && forall i | 0 <= i < |s| :: s[i] == '0'
  }

  /** How much the lazy `(.*?)` takes, trying `from` characters first, before `(00)*$` matches the rest. */
  function LazyMatch(s: string, from: nat): (length: nat)
    requires from <= |s|
    ensures from <= length <= |s| && ZeroPairs(s[length..])
    ensures forall k | from <= k < length :: !ZeroPairs(s[k..])
    decreases |s| - from
  {
    if ZeroPairs(s[from..]) then from else LazyMatch(s, from + 1)
  }

  /** The bytes that are decoded as UTF-8. */
  function Bytes32ToString(s: string): Text {
    var digits := WithoutPrefix(s);
    DecodeHex(digits[..LazyMatch(digits, 0)])
  }

  predicate EndsInNul(text: Text) {
    text != [] && text[|text| - 1] == 0
  }

  /** What is left of `text` without the NUL bytes it ends in. */
  function WithoutTrailingNuls(text: Text): Text {
    if EndsInNul(text) then WithoutTrailingNuls(text[..|text| - 1]) else text
  }

  lemma {:induction false} HexOfDigits(bytes: seq<Byte>)
    ensures |HexOf(bytes)| == 2 * |bytes|
    ensures forall i | 0 <= i < |bytes| ::
        && HexOf(bytes)[2 * i] == HexDigit(bytes[i] as nat / 16)
        && HexOf(bytes)[2 * i + 1] == HexDigit(bytes[i] as nat % 16)
  {
    if bytes != [] {
      HexOfDigits(bytes[1..]);
      forall i | 0 < i < |bytes|
        ensures HexOf(bytes)[2 * i] == HexDigit(bytes[i] as nat / 16)
        ensures HexOf(bytes)[2 * i + 1] == HexDigit(bytes[i] as nat % 16)
      {
        var rest := HexOf(bytes[1..]);
        assert bytes[1..][i - 1] == bytes[i];
        assert HexOf(bytes)[2 * i] == rest[2 * (i - 1)];
        assert HexOf(bytes)[2 * i + 1] == rest[2 * (i - 1) + 1];
      }
    }
  }

  lemma HexDigitIsInvertible(n: nat)
    requires n < 16
    ensures DigitValue(HexDigit(n)) == Some(n)
    ensures HexDigit(n) == '0' <==> n == 0
  {
  }

  lemma {:induction false} DecodeInvertsHex(bytes: seq<Byte>)
    ensures DecodeHex(HexOf(bytes)) == bytes
  {
    if bytes != [] {
      DecodeInvertsHex(bytes[1..]);
      HexDigitIsInvertible(bytes[0] as nat / 16);
      HexDigitIsInvertible(bytes[0] as nat % 16);
      assert HexOf(bytes)[2..] == HexOf(bytes[1..]);
    }
  }

  lemma HexOfCons(x: Byte, rest: seq<Byte>)
    ensures HexOf([x] + rest) == ByteDigits(x) + HexOf(rest)
  {
    assert ([x] + rest)[1..] == rest;
  }

  lemma ConcatIsAssociative<T>(a: seq<T>, b: seq<T>, c: seq<T>)
    ensures a + (b + c) == (a + b) + c
  {
  }

  lemma {:induction false} HexOfConcat(a: seq<Byte>, b: seq<Byte>)
    ensures HexOf(a + b) == HexOf(a) + HexOf(b)
  {
    if a == [] {
      assert a + b == b;
    } else {
      hide HexOf, ByteDigits;
      HexOfConcat(a[1..], b);
      assert HexOf(a) == ByteDigits(a[0]) + HexOf(a[1..]) by {
        HexOfCons(a[0], a[1..]);
        assert a == [a[0]] + a[1..];
      }
      assert HexOf(a + b) == ByteDigits(a[0]) + HexOf(a[1..] + b) by {
        HexOfCons(a[0], a[1..] + b);
        ConcatIsAssociative([a[0]], a[1..], b);
        assert a == [a[0]] + a[1..];
      }
      ConcatIsAssociative(ByteDigits(a[0]), HexOf(a[1..]), HexOf(b));
    }
  }

  /** Zero bytes are pairs of zero digits. */
  lemma {:induction false} HexOfNuls(n: nat)
    ensures HexOf(Repeated(n, 0 as Byte)) == Repeated(2 * n, '0')
  {
    if n != 0 {
      HexOfNuls(n - 1);
      assert Repeated(n, 0 as Byte)[1..] == Repeated(n - 1, 0 as Byte);
      assert Repeated(2 * n, '0') == ['0', '0'] + Repeated(2 * (n - 1), '0');
    }
  }

  lemma {:induction false} TrailingNuls(text: Text)
    ensures var kept := WithoutTrailingNuls(text);
      && |kept| <= |text| && text == kept + Repeated(|text| - |kept|, 0 as Byte) && !EndsInNul(kept)
  {
    if EndsInNul(text) {
      TrailingNuls(text[..|text| - 1]);
    }
  }

  lemma {:induction false} PaddingIsTrailing(text: Text, n: nat)
    ensures WithoutTrailingNuls(text + Repeated(n, 0 as Byte)) == WithoutTrailingNuls(text)
  {
    if n == 0 {
      assert text + Repeated(n, 0 as Byte) == text;
    } else {
      PaddingIsTrailing(text, n - 1);
      var padded := text + Repeated(n, 0 as Byte);
      assert padded[..|padded| - 1] == text + Repeated(n - 1, 0 as Byte);
    }
  }

  /** Padding the digits of a short text is the same as padding its bytes. */
  lemma String32PadsBytes(text: Text)
    ensures String32(text) == "0x" + HexOf(text + Repeated(Max(32 - |text|, 0), 0 as Byte))
  {
    hide HexOf;
    var n, digits := 32 - |text|, HexOf(text);
    assert |digits| == 2 * |text| by { HexOfDigits(text); }
    if n > 0 {
      hide Repeated;
      assert 66 - |"0x" + digits| == 2 * n;
      HexOfConcat(text, Repeated(n, 0 as Byte));
      HexOfNuls(n);
      assert ("0x" + digits) + Repeated(2 * n, '0') == "0x" + (digits + Repeated(2 * n, '0'));
    } else {
      assert text + Repeated(0, 0 as Byte) == text;
    }
  }

  /** No zero pairs up to the end can start before a digit that is not zero. */
  lemma NonZeroStopsPairs(digits: string, k: nat, i: nat)
    requires k <= i < |digits| && digits[i] != '0'
    ensures !ZeroPairs(digits[k..])
  {
    assert digits[k..][i - k] == digits[i];
  }

  /** A byte that is not zero has a digit that is not. */
  lemma NonZeroByte(bytes: seq<Byte>, i: nat)
    requires i < |bytes| && bytes[i] != 0
    ensures |HexOf(bytes)| == 2 * |bytes|
    ensures HexOf(bytes)[2 * i] != '0' || HexOf(bytes)[2 * i + 1] != '0'
  {
    HexOfDigits(bytes);
    HexDigitIsInvertible(bytes[i] as nat / 16);
    HexDigitIsInvertible(bytes[i] as nat % 16);
  }

  /** The lazy match drops whole zero bytes only: a last byte such as 0x30 keeps its zero digit. */
  lemma LazyMatchKeepsWholeBytes(kept: Text, n: nat)
    requires !EndsInNul(kept)
    ensures HexOf(kept + Repeated(n, 0 as Byte)) == HexOf(kept) + Repeated(2 * n, '0')
    ensures LazyMatch(HexOf(kept) + Repeated(2 * n, '0'), 0) == 2 * |kept| == |HexOf(kept)|
  {
    hide HexOf;
    HexOfConcat(kept, Repeated(n, 0 as Byte));
    HexOfNuls(n);
    assert |HexOf(kept)| == 2 * |kept| by { HexOfDigits(kept); }
    var digits := HexOf(kept) + Repeated(2 * n, '0');
    assert digits[2 * |kept|..] == Repeated(2 * n, '0');
    var length := LazyMatch(digits, 0);
    assert length <= 2 * |kept|;
    if length < 2 * |kept| {
      assert |digits[length..]| % 2 == 0;
      var last := |kept| - 1;
      NonZeroByte(kept, last);
      NonZeroStopsPairs(digits, length, if HexOf(kept)[2 * last] != '0' then 2 * last else 2 * last + 1);
    }
  }

  lemma Bytes32ToStringDropsNuls(bytes: seq<Byte>)
    ensures Bytes32ToString("0x" + HexOf(bytes)) == WithoutTrailingNuls(bytes)
  {
    hide HexOf, LazyMatch, DecodeHex, Repeated;
    var kept := WithoutTrailingNuls(bytes);
    TrailingNuls(bytes);
    LazyMatchKeepsWholeBytes(kept, |bytes| - |kept|);
    assert WithoutPrefix("0x" + HexOf(bytes)) == HexOf(bytes);
    assert HexOf(bytes)[..2 * |kept|] == HexOf(kept);
    DecodeInvertsHex(kept);
  }

  /** A text survives packing iff it does not end in NUL; what else survives is the text without those NULs. */
  lemma RoundTripIffNoTrailingNul(text: Text)
    ensures Bytes32ToString(String32(text)) == WithoutTrailingNuls(text)
    ensures Bytes32ToString(String32(text)) == text <==> !EndsInNul(text)
  {
    String32PadsBytes(text);
    var padded := text + Repeated(Max(32 - |text|, 0), 0 as Byte);
    Bytes32ToStringDropsNuls(padded);
    PaddingIsTrailing(text, Max(32 - |text|, 0));
    TrailingNuls(text);
  }

  /** The other way round: a 32-byte word is recovered from the text it is read as. */
  lemma WordRoundTrip(word: seq<Byte>)
    requires |word| == 32
    ensures String32(Bytes32ToString("0x" + HexOf(word))) == "0x" + HexOf(word)
  {
    Bytes32ToStringDropsNuls(word);
    TrailingNuls(word);
    String32PadsBytes(WithoutTrailingNuls(word));
  }

  /** Different 32-byte words are read as different texts. */
  lemma StrippingIsInjective(u: seq<Byte>, v: seq<Byte>)
    requires |u| == 32 && |v| == 32
    requires Bytes32ToString("0x" + HexOf(u)) == Bytes32ToString("0x" + HexOf(v))
    ensures u == v
  {
    WordRoundTrip(u);
    WordRoundTrip(v);
    DecodeInvertsHex(u);
    DecodeInvertsHex(v);
    assert ("0x" + HexOf(u))[2..] == HexOf(u);
    assert ("0x" + HexOf(v))[2..] == HexOf(v);
  }

  // ---- History ----

  /** The registry's events about one id; words are as the contract library returns them. */
  datatype RegistryEvent =
    | VersionAdded(version: string, value: string, time: int)
    | VersionCanceled(version: string, reason: string)
    | Unrelated

  datatype VersionInfo = VersionInfo(value: string, version: Text, time: int, canceled: bool,
                                     cancelReason: Option<string>)

  /** The text a word is read as; `utf8` is what decoding makes of bytes, well-formed or not. */
  function NameOf(utf8: Text -> Text, word: string): Text {
    utf8(Bytes32ToString(word))
  }

  predicate Adds(utf8: Text -> Text, e: RegistryEvent, name: Text) {
    e.VersionAdded? && NameOf(utf8, e.version) == name
  }

  /** The reason of the last cancellation of each word, whether before or after it was added. */
  function CancelReasons(events: seq<RegistryEvent>): map<string, string> {
    if events == [] then map[] else
      var before := CancelReasons(events[..|events| - 1]);
      match events[|events| - 1]
      case VersionCanceled(version, reason) => before[version := reason]
      case _ => before
  }

  predicate AddedIn(utf8: Text -> Text, events: seq<RegistryEvent>, name: Text) {
    exists e | e in events :: Adds(utf8, e, name)
  }

  lemma NothingAddedYet(utf8: Text -> Text, events: seq<RegistryEvent>)
    ensures forall name :: !AddedIn(utf8, events[..0], name)
  {
  }

  lemma AddedByOneMore(utf8: Text -> Text, events: seq<RegistryEvent>, i: nat)
    requires i < |events|
    ensures forall name ::
      AddedIn(utf8, events[..i + 1], name) <==> AddedIn(utf8, events[..i], name) || Adds(utf8, events[i], name)
  {
    assert forall e :: e in events[..i + 1] <==> e in events[..i] || e == events[i];
  }

  /** Positions of the events that add a name for the first time, in order. */
  function FirstAdditions(utf8: Text -> Text, events: seq<RegistryEvent>): (positions: seq<nat>)
    ensures forall k | 0 <= k < |positions| :: positions[k] < |events| && events[positions[k]].VersionAdded?
  {
    if events == [] then [] else
      var n := |events| - 1;
      var before := FirstAdditions(utf8, events[..n]);
      if events[n].VersionAdded? && !AddedIn(utf8, events[..n], NameOf(utf8, events[n].version))
      then before + [n]
      else before
  }

  function InfoOf(utf8: Text -> Text, reasons: map<string, string>, e: RegistryEvent): VersionInfo
    requires e.VersionAdded?
  {
    VersionInfo(e.value, NameOf(utf8, e.version), e.time, e.version in reasons,
      if e.version in reasons then Some(reasons[e.version]) else None)
  }

  /** First additions, newest first. */
  function AllVersions(utf8: Text -> Text, events: seq<RegistryEvent>): seq<VersionInfo> {
    var positions := FirstAdditions(utf8, events);
    seq(|positions|, k requires 0 <= k < |positions| =>
      InfoOf(utf8, CancelReasons(events), events[positions[|positions| - 1 - k]]))
  }

  /** The `reduce` over the cancellations. */
  method CollectReasons(events: seq<RegistryEvent>) returns (cancelReasons: map<string, string>)
    ensures cancelReasons == CancelReasons(events)
  {
    cancelReasons := map[];
    for i := 0 to |events|
      invariant cancelReasons == CancelReasons(events[..i])
    {
      assert events[..i + 1][..i] == events[..i];
      if events[i].VersionCanceled? {
        cancelReasons := cancelReasons[events[i].version := events[i].reason];
      }
    }
    assert events[..|events|] == events;
  }

  method GetAllVersions(utf8: Text -> Text, events: seq<RegistryEvent>) returns (versions: seq<VersionInfo>)
    ensures versions == AllVersions(utf8, events)
  {
    hide NameOf, AddedIn, CancelReasons;
    var cancelReasons := CollectReasons(events);
    assert events[..|events|] == events;
    NothingAddedYet(utf8, events);
    var found: set<Text> := {};
    var kept: seq<VersionInfo> := [];
    ghost var positions: seq<nat> := [];
    for i := 0 to |events|
      invariant forall name :: name in found <==> AddedIn(utf8, events[..i], name)
      invariant positions == FirstAdditions(utf8, events[..i])
      invariant |kept| == |positions|
      invariant forall k | 0 <= k < |kept| :: positions[k] < i && events[positions[k]].VersionAdded?
      invariant forall k | 0 <= k < |kept| :: kept[k] == InfoOf(utf8, cancelReasons, events[positions[k]])
    {
      AddedByOneMore(utf8, events, i);
      assert events[..i + 1][..i] == events[..i];
      if events[i].VersionAdded? {
        var info := InfoOf(utf8, cancelReasons, events[i]);
        if info.version !in found {
          found := found + {info.version};
          kept := kept + [info];
          positions := positions + [i];
        }
      }
    }
    versions := seq(|kept|, k requires 0 <= k < |kept| => kept[|kept| - 1 - k]);
  }

  predicate Eligible(v: VersionInfo, delayPeriod: int, now: int, optInVersion: Text) {
    !v.canceled && (v.time + delayPeriod <= now || v.version == optInVersion)
  }

  /** Where `find` stops: the first eligible entry, or the length when there is none. */
  function FindEligible(versions: seq<VersionInfo>, delayPeriod: int, now: int, optInVersion: Text): (k: nat)
    ensures k <= |versions|
    ensures k < |versions| ==> Eligible(versions[k], delayPeriod, now, optInVersion)
    ensures forall j | 0 <= j < k :: !Eligible(versions[j], delayPeriod, now, optInVersion)
  {
    if versions == [] || Eligible(versions[0], delayPeriod, now, optInVersion) then 0
    else FindEligible(versions[1..], delayPeriod, now, optInVersion) + 1
  }

  /** `None` where the source throws "no version found". */
  function GetVersion(utf8: Text -> Text, events: seq<RegistryEvent>, delayPeriod: int, now: int, optInVersion: Text)
    : Option<VersionInfo>
  {
    var versions := AllVersions(utf8, events);
    var k := FindEligible(versions, delayPeriod, now, optInVersion);
    if k < |versions| then Some(versions[k]) else None
  }

  // ---- What the history promises ----

  /** Position `i` is the first to add its name. */
  predicate IsFirstAddition(utf8: Text -> Text, events: seq<RegistryEvent>, i: nat) {
    && i < |events| && events[i].VersionAdded?
    && forall j | 0 <= j < i :: !Adds(utf8, events[j], NameOf(utf8, events[i].version))
  }

  lemma {:induction false} FirstAdditionsAreFirst(utf8: Text -> Text, events: seq<RegistryEvent>)
    ensures forall i: nat :: i in FirstAdditions(utf8, events) <==> IsFirstAddition(utf8, events, i)
    ensures forall j, k | 0 <= j < k < |FirstAdditions(utf8, events)| ::
      FirstAdditions(utf8, events)[j] < FirstAdditions(utf8, events)[k]
  {
    if events != [] {
      var n := |events| - 1;
      var before := FirstAdditions(utf8, events[..n]);
      FirstAdditionsAreFirst(utf8, events[..n]);
      forall i: nat | i < n
        ensures i in before <==> IsFirstAddition(utf8, events, i)
      {
        assert IsFirstAddition(utf8, events[..n], i) <==> IsFirstAddition(utf8, events, i);
      }
      forall k | 0 <= k < |before| ensures before[k] < n {
        assert before[k] in before;
      }
    }
  }

  lemma FirstAdditionsDiffer(utf8: Text -> Text, events: seq<RegistryEvent>, i: nat, j: nat)
    requires i < j && IsFirstAddition(utf8, events, i) && IsFirstAddition(utf8, events, j)
    ensures NameOf(utf8, events[i].version) != NameOf(utf8, events[j].version)
  {
    assert !Adds(utf8, events[i], NameOf(utf8, events[j].version));
  }

  /**
   Every name that was ever added is listed once, by its first addition, the later first addition before the earlier.
   */
  lemma ListedOnceNewestFirst(utf8: Text -> Text, events: seq<RegistryEvent>) returns (positions: seq<nat>)
    ensures |positions| == |AllVersions(utf8, events)|
    ensures forall k | 0 <= k < |positions| ::
      && IsFirstAddition(utf8, events, positions[k])
      && AllVersions(utf8, events)[k] == InfoOf(utf8, CancelReasons(events), events[positions[k]])
    ensures forall i: nat | IsFirstAddition(utf8, events, i) :: i in positions
    ensures forall j, k | 0 <= j < k < |positions| :: positions[k] < positions[j]
    ensures forall j, k | 0 <= j < k < |positions| ::
      AllVersions(utf8, events)[j].version != AllVersions(utf8, events)[k].version
  {
    hide FirstAdditions, CancelReasons, Bytes32ToString, IsFirstAddition;
    var first := FirstAdditions(utf8, events);
    var n := |first|;
    FirstAdditionsAreFirst(utf8, events);
    positions := seq(n, k requires 0 <= k < n => first[n - 1 - k]);
    forall k | 0 <= k < n
      ensures AllVersions(utf8, events)[k] == InfoOf(utf8, CancelReasons(events), events[positions[k]])
    {
      assert positions[k] == first[n - 1 - k];
    }
    forall k | 0 <= k < n ensures IsFirstAddition(utf8, events, positions[k]) {
      assert positions[k] in first;
    }
    forall i: nat | IsFirstAddition(utf8, events, i) ensures i in positions {
      assert i in first;
      var k :| 0 <= k < n && first[k] == i;
      assert positions[n - 1 - k] == i;
    }
    forall j, k | 0 <= j < k < n ensures AllVersions(utf8, events)[j].version != AllVersions(utf8, events)[k].version {
      FirstAdditionsDiffer(utf8, events, positions[k], positions[j]);
    }
  }

  lemma {:induction false} AddedNameHasFirstAddition(utf8: Text -> Text, events: seq<RegistryEvent>, i: nat)
    returns (first: nat)
    requires i < |events| && events[i].VersionAdded?
    ensures first <= i && IsFirstAddition(utf8, events, first)
    ensures NameOf(utf8, events[first].version) == NameOf(utf8, events[i].version)
    decreases i
  {
    if j :| 0 <= j < i && Adds(utf8, events[j], NameOf(utf8, events[i].version)) {
      first := AddedNameHasFirstAddition(utf8, events, j);
    } else {
      first := i;
    }
  }

  /** A name is listed iff some event adds it. */
  lemma ListedIffAdded(utf8: Text -> Text, events: seq<RegistryEvent>, name: Text)
    ensures (exists v | v in AllVersions(utf8, events) :: v.version == name) <==> AddedIn(utf8, events, name)
  {
    hide CancelReasons, FirstAdditions, AllVersions, NameOf;
    var positions := ListedOnceNewestFirst(utf8, events);
    var versions := AllVersions(utf8, events);
    if e :| e in events && Adds(utf8, e, name) {
      var i :| 0 <= i < |events| && events[i] == e;
      var first := AddedNameHasFirstAddition(utf8, events, i);
      var k :| 0 <= k < |positions| && positions[k] == first;
      assert versions[k] in versions && versions[k].version == name;
    }
    if v :| v in versions && v.version == name {
      var k :| 0 <= k < |versions| && versions[k] == v;
      assert Adds(utf8, events[positions[k]], name);
    }
  }

  predicate Cancels(e: RegistryEvent, word: string) {
    e.VersionCanceled? && e.version == word
  }

  /** A word is cancelled iff some event cancels it, and the reason shown is that of the last such event. */
  lemma {:induction false} CanceledByLastCancellation(events: seq<RegistryEvent>, word: string)
    ensures word in CancelReasons(events) <==>
      exists i | 0 <= i < |events| :: Cancels(events[i], word)
    ensures forall i | 0 <= i < |events| && Cancels(events[i], word)
        && (forall j | i < j < |events| :: !Cancels(events[j], word)) ::
      word in CancelReasons(events) && CancelReasons(events)[word] == events[i].reason
  {
    if events != [] {
      var n := |events| - 1;
      CanceledByLastCancellation(events[..n], word);
      assert forall i | 0 <= i < n :: Cancels(events[..n][i], word) == Cancels(events[i], word);
    }
  }

  lemma OneMoreEvent(utf8: Text -> Text, events: seq<RegistryEvent>, e: RegistryEvent)
    ensures FirstAdditions(utf8, events + [e]) == FirstAdditions(utf8, events)
      || FirstAdditions(utf8, events + [e]) == FirstAdditions(utf8, events) + [|events|]
  {
    hide NameOf, AddedIn;
    assert (events + [e])[..|events|] == events;
  }

  lemma {:induction false} FirstAdditionsGrow(utf8: Text -> Text, events: seq<RegistryEvent>, more: seq<RegistryEvent>)
    ensures FirstAdditions(utf8, events) <= FirstAdditions(utf8, events + more)
    ensures forall k | |FirstAdditions(utf8, events)| <= k < |FirstAdditions(utf8, events + more)| ::
      |events| <= FirstAdditions(utf8, events + more)[k]
  {
    if more == [] {
      assert events + more == events;
    } else {
      var n := |more| - 1;
      assert events + more == (events + more[..n]) + [more[n]];
      OneMoreEvent(utf8, events + more[..n], more[n]);
      hide FirstAdditions;
      FirstAdditionsGrow(utf8, events, more[..n]);
    }
  }

  lemma {:induction false} CancellationsGrow(events: seq<RegistryEvent>, more: seq<RegistryEvent>)
    ensures CancelReasons(events).Keys <= CancelReasons(events + more).Keys
    ensures (forall e | e in more :: !e.VersionCanceled?) ==> CancelReasons(events + more) == CancelReasons(events)
  {
    if more == [] {
      assert events + more == events;
    } else {
      var n := |more| - 1;
      CancellationsGrow(events, more[..n]);
      assert (events + more)[..|events| + n] == events + more[..n];
    }
  }

  predicate MadeFrom(utf8: Text -> Text, events: seq<RegistryEvent>, reasons: map<string, string>, v: VersionInfo) {
    exists e | e in events :: e.VersionAdded? && v == InfoOf(utf8, reasons, e)
  }

  /**
   * More events only put entries in front, made from those events. The old ones keep their order, version, value and
   * time, and one that was cancelled stays so; without new cancellations they do not change at all.
   */
  lemma HistoryIsAppendOnly(utf8: Text -> Text, events: seq<RegistryEvent>, more: seq<RegistryEvent>)
    returns (added: nat)
    ensures |AllVersions(utf8, events + more)| == added + |AllVersions(utf8, events)|
    ensures forall k | 0 <= k < added ::
      MadeFrom(utf8, more, CancelReasons(events + more), AllVersions(utf8, events + more)[k])
    ensures forall k | 0 <= k < |AllVersions(utf8, events)| ::
      var before, after := AllVersions(utf8, events)[k], AllVersions(utf8, events + more)[added + k];
      && after.version == before.version && after.value == before.value && after.time == before.time
      && (before.canceled ==> after.canceled)
    ensures (forall e | e in more :: !e.VersionCanceled?) ==>
      AllVersions(utf8, events + more)[added..] == AllVersions(utf8, events)
  {
    hide CancelReasons, FirstAdditions, NameOf;
    FirstAdditionsGrow(utf8, events, more);
    CancellationsGrow(events, more);
    var first := FirstAdditions(utf8, events + more);
    added := |first| - |FirstAdditions(utf8, events)|;
    forall k | 0 <= k < added
      ensures MadeFrom(utf8, more, CancelReasons(events + more), AllVersions(utf8, events + more)[k])
    {
      var i := first[|first| - 1 - k];
      var e := more[i - |events|];
      assert (events + more)[i] == e && e in more;
      assert AllVersions(utf8, events + more)[k] == InfoOf(utf8, CancelReasons(events + more), e);
    }
    forall k | 0 <= k < |AllVersions(utf8, events)|
      ensures var i := FirstAdditions(utf8, events)[|FirstAdditions(utf8, events)| - 1 - k];
        && AllVersions(utf8, events)[k] == InfoOf(utf8, CancelReasons(events), events[i])
        && AllVersions(utf8, events + more)[added + k] == InfoOf(utf8, CancelReasons(events + more), events[i])
    {
      var i := FirstAdditions(utf8, events)[|FirstAdditions(utf8, events)| - 1 - k];
      assert i == first[|first| - 1 - (added + k)];
      assert (events + more)[i] == events[i];
    }
  }

  /**
   Cancellation is permanent: once the word a listed name was first added with is cancelled, the name is never
   returned.
   */
  lemma CanceledIsNeverReturned(utf8: Text -> Text, events: seq<RegistryEvent>, more: seq<RegistryEvent>, i: nat,
      delayPeriod: int, now: int, optInVersion: Text)
    requires IsFirstAddition(utf8, events, i) && events[i].version in CancelReasons(events)
    ensures var got := GetVersion(utf8, events + more, delayPeriod, now, optInVersion);
      got.Some? ==> got.value.version != NameOf(utf8, events[i].version)
  {
    hide CancelReasons, FirstAdditions, AllVersions, Bytes32ToString, NameOf;
    var after := AllVersions(utf8, events + more);
    var k := FindEligible(after, delayPeriod, now, optInVersion);
    CancellationsGrow(events, more);
    var positions := ListedOnceNewestFirst(utf8, events + more);
    assert IsFirstAddition(utf8, events + more, i);
    var m :| 0 <= m < |positions| && positions[m] == i;
    assert after[m].canceled;
  }

  /** `getVersion` returns the newest eligible entry, and throws exactly when there is none. */
  lemma NewestEligibleIsReturned(utf8: Text -> Text, events: seq<RegistryEvent>, delayPeriod: int, now: int,
      optInVersion: Text, v: VersionInfo)
    ensures GetVersion(utf8, events, delayPeriod, now, optInVersion) == Some(v) <==>
      exists k | 0 <= k < |AllVersions(utf8, events)| ::
        && AllVersions(utf8, events)[k] == v && Eligible(v, delayPeriod, now, optInVersion)
        && forall j | 0 <= j < k :: !Eligible(AllVersions(utf8, events)[j], delayPeriod, now, optInVersion)
    ensures GetVersion(utf8, events, delayPeriod, now, optInVersion).None? <==>
      forall u | u in AllVersions(utf8, events) :: !Eligible(u, delayPeriod, now, optInVersion)
  {
    hide AllVersions;
  }

  /**
   What the events offer at position `i`: the first addition of its name, of a word that no event cancels, old enough or
   asked for by name.
   */
  ghost predicate Offered(utf8: Text -> Text, events: seq<RegistryEvent>, delayPeriod: int, now: int,
      optInVersion: Text, i: nat)
  {
    && i < |events| && events[i].VersionAdded?
    && (forall j | 0 <= j < i && events[j].VersionAdded? ::
          utf8(Bytes32ToString(events[j].version)) != utf8(Bytes32ToString(events[i].version)))
    && (forall j | 0 <= j < |events| && events[j].VersionCanceled? :: events[j].version != events[i].version)
    && (now - events[i].time >= delayPeriod || utf8(Bytes32ToString(events[i].version)) == optInVersion)
  }

  /** The entry is that of the event: its name, value and time, and not cancelled. */
  ghost predicate ShowsEvent(utf8: Text -> Text, v: VersionInfo, e: RegistryEvent) {
    && e.VersionAdded? && v.version == utf8(Bytes32ToString(e.version)) && v.value == e.value && v.time == e.time
    && !v.canceled && v.cancelReason.None?
  }

  lemma EligibleIffOffered(utf8: Text -> Text, events: seq<RegistryEvent>, delayPeriod: int, now: int,
      optInVersion: Text, i: nat)
    requires IsFirstAddition(utf8, events, i)
    ensures Eligible(InfoOf(utf8, CancelReasons(events), events[i]), delayPeriod, now, optInVersion)
      <==> Offered(utf8, events, delayPeriod, now, optInVersion, i)
    ensures Offered(utf8, events, delayPeriod, now, optInVersion, i) ==>
      ShowsEvent(utf8, InfoOf(utf8, CancelReasons(events), events[i]), events[i])
  {
    hide CancelReasons, Bytes32ToString;
    CanceledByLastCancellation(events, events[i].version);
    assert forall j | 0 <= j < i :: Adds(utf8, events[j], NameOf(utf8, events[i].version)) <==>
      events[j].VersionAdded? && utf8(Bytes32ToString(events[j].version)) == utf8(Bytes32ToString(events[i].version));
  }

  lemma OfferedIsFirst(utf8: Text -> Text, events: seq<RegistryEvent>, delayPeriod: int, now: int, optInVersion: Text,
      i: nat)
    requires Offered(utf8, events, delayPeriod, now, optInVersion, i)
    ensures IsFirstAddition(utf8, events, i)
  {
    hide Bytes32ToString;
  }

  /** `getVersion` answers with the latest addition that the events offer, and throws exactly when they offer none. */
  lemma LatestOfferedIsReturned(utf8: Text -> Text, events: seq<RegistryEvent>, delayPeriod: int, now: int,
      optInVersion: Text)
    ensures var got := GetVersion(utf8, events, delayPeriod, now, optInVersion);
      match got
      case None => forall i: nat :: !Offered(utf8, events, delayPeriod, now, optInVersion, i)
      case Some(v) => exists i: nat ::
        && Offered(utf8, events, delayPeriod, now, optInVersion, i) && ShowsEvent(utf8, v, events[i])
        && forall j: nat | Offered(utf8, events, delayPeriod, now, optInVersion, j) :: j <= i
  {
    hide CancelReasons, AllVersions, NameOf, FirstAdditions, Offered, Eligible, IsFirstAddition, ShowsEvent;
    var positions := ListedOnceNewestFirst(utf8, events);
    var versions := AllVersions(utf8, events);
    var k := FindEligible(versions, delayPeriod, now, optInVersion);
    forall j | 0 <= j < |positions|
      ensures Eligible(versions[j], delayPeriod, now, optInVersion)
        <==> Offered(utf8, events, delayPeriod, now, optInVersion, positions[j])
    {
      EligibleIffOffered(utf8, events, delayPeriod, now, optInVersion, positions[j]);
    }
    forall i: nat | Offered(utf8, events, delayPeriod, now, optInVersion, i)
      ensures exists j :: 0 <= j < |positions| && positions[j] == i && j >= k
    {
      OfferedIsFirst(utf8, events, delayPeriod, now, optInVersion, i);
      var j :| 0 <= j < |positions| && positions[j] == i;
      assert j >= k;
    }
    if k < |versions| {
      EligibleIffOffered(utf8, events, delayPeriod, now, optInVersion, positions[k]);
      assert forall j | k <= j < |positions| :: positions[j] <= positions[k];
    }
  }

  /** A longer delay, or an earlier clock, moves the answer to the same or an older entry. */
  lemma LongerDelayOnlyMovesBack(versions: seq<VersionInfo>, delay: int, longer: int, now: int, earlier: int,
      optInVersion: Text)
    requires delay <= longer && earlier <= now
    ensures FindEligible(versions, delay, now, optInVersion) <= FindEligible(versions, longer, earlier, optInVersion)
  {
    var k := FindEligible(versions, longer, earlier, optInVersion);
    if k < |versions| {
      assert Eligible(versions[k], delay, now, optInVersion);
    }
  }

  lemma {:induction false} FindSkipsIneligible(front: seq<VersionInfo>, versions: seq<VersionInfo>, delayPeriod: int,
      now: int, optInVersion: Text)
    requires forall v | v in front :: !Eligible(v, delayPeriod, now, optInVersion)
    ensures FindEligible(front + versions, delayPeriod, now, optInVersion)
      == |front| + FindEligible(versions, delayPeriod, now, optInVersion)
  {
    if front == [] {
      assert front + versions == versions;
    } else {
      FindSkipsIneligible(front[1..], versions, delayPeriod, now, optInVersion);
      assert (front + versions)[1..] == front[1..] + versions;
    }
  }

  /** Versions that are still too young, and not opted into, do not change the answer. */
  lemma YoungVersionsDoNotMatter(utf8: Text -> Text, events: seq<RegistryEvent>, more: seq<RegistryEvent>,
      delayPeriod: int, now: int, optInVersion: Text)
    requires forall e | e in more ::
      e.VersionAdded? && now < e.time + delayPeriod && NameOf(utf8, e.version) != optInVersion
    ensures GetVersion(utf8, events + more, delayPeriod, now, optInVersion)
      == GetVersion(utf8, events, delayPeriod, now, optInVersion)
  {
    hide CancelReasons, FirstAdditions;
    var before, after := AllVersions(utf8, events), AllVersions(utf8, events + more);
    var added := HistoryIsAppendOnly(utf8, events, more);
    assert after == after[..added] + before;
    forall k | 0 <= k < added ensures !Eligible(after[k], delayPeriod, now, optInVersion) {
    }
    FindSkipsIneligible(after[..added], before, delayPeriod, now, optInVersion);
  }

  // ---- Writing to the registry ----

  /** What `checkVersion` looks for before an addition or a cancellation is sent. */
  predicate Listed(utf8: Text -> Text, events: seq<RegistryEvent>, name: Text) {
    exists v | v in AllVersions(utf8, events) :: v.version == name
  }

  /**
   * `addVersion` of a name that is not listed, well-formed and no longer than a word. It is listed afterwards, newest
   * and with its own value, iff it does not end in NUL; if it does, and the name without the NULs is listed, the
   * addition is lost.
   */
  lemma AddVersionListsIffNoTrailingNul(utf8: Text -> Text, events: seq<RegistryEvent>, version: Text, value: string,
      time: int)
    requires !Listed(utf8, events, version)
    requires utf8(WithoutTrailingNuls(version)) == WithoutTrailingNuls(version)
    ensures var sent := VersionAdded(String32(version), value, time);
      var after := AllVersions(utf8, events + [sent]);
      && (Listed(utf8, events + [sent], version) <==> !EndsInNul(version))
      && (!EndsInNul(version) ==>
            after == [InfoOf(utf8, CancelReasons(events), sent)] + AllVersions(utf8, events)
            && after[0].version == version && after[0].value == value && after[0].time == time)
      && (EndsInNul(version) && Listed(utf8, events, WithoutTrailingNuls(version)) ==>
            after == AllVersions(utf8, events))
  {
    hide String32, Bytes32ToString, AllVersions;
    var sent := VersionAdded(String32(version), value, time);
    var name := WithoutTrailingNuls(version);
    RoundTripIffNoTrailingNul(version);
    TrailingNuls(version);
    assert NameOf(utf8, sent.version) == name;
    ListedIffAdded(utf8, events, version);
    ListedIffAdded(utf8, events, name);
    ListedIffAdded(utf8, events + [sent], version);
    assert forall e :: e in events + [sent] <==> e in events || e == sent;
    OneMoreAddition(utf8, events, sent);
  }

  lemma OneMoreAddition(utf8: Text -> Text, events: seq<RegistryEvent>, sent: RegistryEvent)
    requires sent.VersionAdded?
    ensures AllVersions(utf8, events + [sent]) ==
      (if AddedIn(utf8, events, NameOf(utf8, sent.version)) then [] else [InfoOf(utf8, CancelReasons(events), sent)])
      + AllVersions(utf8, events)
  {
    hide NameOf, InfoOf, CancelReasons;
    var longer := events + [sent];
    assert longer[..|events|] == events;
    assert |AllVersions(utf8, longer)| == |FirstAdditions(utf8, longer)|;
    assert |AllVersions(utf8, events)| == |FirstAdditions(utf8, events)|;
    assert |FirstAdditions(utf8, longer)| - |FirstAdditions(utf8, events)|
      == if AddedIn(utf8, events, NameOf(utf8, sent.version)) then 0 else 1;
    hide FirstAdditions, AllVersions, AddedIn;
    CancellationsGrow(events, [sent]);
    var added := HistoryIsAppendOnly(utf8, events, [sent]);
    var after := AllVersions(utf8, longer);
    if added == 1 {
      assert MadeFrom(utf8, [sent], CancelReasons(longer), after[0]);
      assert after[..1] == [InfoOf(utf8, CancelReasons(events), sent)];
    }
    assert after == after[..added] + after[added..];
  }

  /** Whatever happens later and whoever asks how, `getVersion` does not answer with this name. */
  ghost predicate NeverReturned(utf8: Text -> Text, events: seq<RegistryEvent>, name: Text) {
    forall more: seq<RegistryEvent>, delayPeriod: int, now: int, optInVersion: Text ::
      var got := GetVersion(utf8, events + more, delayPeriod, now, optInVersion);
      got.Some? ==> got.value.version != name
  }

  lemma {:induction false} TimeBefore(versions: seq<VersionInfo>) returns (t: int)
    ensures forall v | v in versions :: t < v.time
  {
    if versions == [] {
      t := 0;
    } else {
      t := TimeBefore(versions[1..]);
      t := if t < versions[0].time then t else versions[0].time - 1;
    }
  }

  /** A first addition whose word is not cancelled is returned to a caller who opts into its name, early enough. */
  lemma UncanceledIsReturned(utf8: Text -> Text, events: seq<RegistryEvent>, i: nat)
    requires IsFirstAddition(utf8, events, i) && events[i].version !in CancelReasons(events)
    ensures !NeverReturned(utf8, events, NameOf(utf8, events[i].version))
  {
    hide CancelReasons, AllVersions, NameOf, FirstAdditions;
    var name, versions := NameOf(utf8, events[i].version), AllVersions(utf8, events);
    var now := TimeBefore(versions);
    var positions := ListedOnceNewestFirst(utf8, events);
    var k :| 0 <= k < |positions| && positions[k] == i;
    assert Eligible(versions[k], 0, now, name);
    assert events + [] == events;
    assert GetVersion(utf8, events + [], 0, now, name).value.version == name;
  }

  /**
   The word packed from what a 32-byte word is read as is that word iff decoding changes no byte but trailing NULs.
   */
  lemma PackedAgainIff(text: Text, word: seq<Byte>)
    requires |word| == 32
    ensures String32(text) == "0x" + HexOf(word) <==>
      |text| <= 32 && WithoutTrailingNuls(text) == WithoutTrailingNuls(word)
  {
    hide HexOf, WithoutTrailingNuls, String32;
    var padded := text + Repeated(Max(32 - |text|, 0), 0 as Byte);
    String32PadsBytes(text);
    PaddingIsTrailing(text, Max(32 - |text|, 0));
    HexOfDigits(word);
    HexOfDigits(padded);
    DecodeInvertsHex(word);
    DecodeInvertsHex(padded);
    TrailingNuls(word);
    TrailingNuls(padded);
    assert ("0x" + HexOf(word))[2..] == HexOf(word) && ("0x" + HexOf(padded))[2..] == HexOf(padded);
  }

  /**
   * `cancelVersion` of a name that a 32-byte word first added: the word it sends is that one iff decoding changed
   * none of its bytes but the trailing NULs, as when it is well-formed. The name is never returned again iff it is
   * that word, or the word was cancelled already.
   */
  lemma CancelVersionWithdraws(utf8: Text -> Text, events: seq<RegistryEvent>, i: nat, word: seq<Byte>, reason: string)
    requires IsFirstAddition(utf8, events, i)
    requires |word| == 32 && events[i].version == "0x" + HexOf(word)
    ensures var version := NameOf(utf8, events[i].version);
      var sent := VersionCanceled(String32(version), reason);
      && (sent.version == events[i].version <==>
            |version| <= 32 && WithoutTrailingNuls(version) == WithoutTrailingNuls(word))
      && (utf8(WithoutTrailingNuls(word)) == WithoutTrailingNuls(word) ==> sent.version == events[i].version)
      && (NeverReturned(utf8, events + [sent], version) <==>
            sent.version == events[i].version || events[i].version in CancelReasons(events))
  {
    hide String32, Bytes32ToString, HexOf, GetVersion, NeverReturned, WithoutTrailingNuls;
    var version := NameOf(utf8, events[i].version);
    var sent := VersionCanceled(String32(version), reason);
    var canceled := events + [sent];
    PackedAgainIff(version, word);
    Bytes32ToStringDropsNuls(word);
    WordRoundTrip(word);
    assert canceled[..|events|] == events;
    assert IsFirstAddition(utf8, canceled, i);
    if events[i].version in CancelReasons(canceled) {
      CanceledStaysAway(utf8, canceled, i);
    } else {
      UncanceledIsReturned(utf8, canceled, i);
    }
  }

  lemma CanceledStaysAway(utf8: Text -> Text, events: seq<RegistryEvent>, i: nat)
    requires IsFirstAddition(utf8, events, i) && events[i].version in CancelReasons(events)
    ensures NeverReturned(utf8, events, NameOf(utf8, events[i].version))
  {
    hide GetVersion, NameOf, CancelReasons;
    forall more: seq<RegistryEvent>, delayPeriod: int, now: int, optInVersion: Text
      ensures var got := GetVersion(utf8, events + more, delayPeriod, now, optInVersion);
        got.Some? ==> got.value.version != NameOf(utf8, events[i].version)
    {
      CanceledIsNeverReturned(utf8, events, more, i, delayPeriod, now, optInVersion);
    }
  }
}
