/** Vocabulary shared by every part of the marketplace model: identifiers,
    results and the errors the resolvers throw, the JavaScript list and string
    operations the resolvers rely on (Array.find, Array.findIndex,
    Array.filter, String.startsWith, String.includes, String.toLowerCase,
    String.trim, String.length), and uniqueness of keys in a collection. */
module Common {

  /** A MongoDB ObjectId, in the string form the resolvers compare. */
  type Id = string

  datatype Option<+T> = None | Some(value: T)

  datatype Result<+T> = Ok(value: T) | Err(error: Error)

  datatype Coordinates = Coordinates(latitude: real, longitude: real)

  /** A street address with its coordinates, as a restaurant stores it and
      as an order snapshots the delivery address. */
  datatype Location = Location(
    street: string, city: string, state: string, zipCode: string, coordinates: Coordinates)

  /** One constructor per error message thrown by the resolvers and guards. */
  datatype Error =
    | AuthenticationRequired               // requireAuth without an identity
    | InsufficientPermissions              // requireRole with a role outside the list
    | NotAuthorized                        // ownership / assignment checks
    | NoDeliveryAddress                    // checkout by a customer with no saved address
    | AddressNotFound                      // checkout with an unknown address id
    | RestaurantNotFound
    | RestaurantNotAvailable               // not APPROVED or not open
    | MenuItemMissing(menuItemId: Id)      // checkout: the message names the id
    | ItemNotAvailable(itemName: string)   // checkout: the message names the item
    | BelowMinimum(minimum: real, subtotal: real)
    | OrderNotFound
    | InvalidRider
    | NotReadyForPickup
    | AlreadyAssigned
    | CannotCancelAtThisStage
    | ReviewNotFound
    | OrderNotDelivered                    // only delivered orders can be reviewed
    | ReviewAlreadyExists
    | AlreadyHasRestaurant
    | MenuItemNotFound
    | PasswordTooShort
    | InvalidOrExpiredToken
    | UserAlreadyExists
    | InvalidCredentials                   // one message for unknown email and wrong password
    | AccountDeactivated
    | ValidationFailed                     // a schema validator rejected a new document
    | DuplicateKey                         // a unique index rejected a new document

  /** Array.prototype.findIndex: the first position whose element satisfies
      `p`, or -1. Array.find and Model.findOne are this index, read back. */
  function FirstIndex<T>(s: seq<T>, p: T -> bool): (r: int)
    ensures -1 <= r < |s|
    ensures r == -1 <==> forall k :: 0 <= k < |s| ==> !p(s[k])
    ensures 0 <= r ==> p(s[r]) && forall k :: 0 <= k < r ==> !p(s[k])
  {
    if |s| == 0 then -1
    else if p(s[0]) then 0
    else
      var r := FirstIndex(s[1..], p);
      if r == -1 then -1 else r + 1
  }

  /** Array.prototype.filter (and Model.find with a filter document): the
      elements satisfying `p`, in their original order. */
  function Filter<T>(s: seq<T>, p: T -> bool): (r: seq<T>)
    ensures |r| <= |s|
    ensures forall k :: 0 <= k < |r| ==> r[k] in s && p(r[k])
    ensures forall k :: 0 <= k < |s| && p(s[k]) ==> s[k] in r
  {
    if |s| == 0 then [] else (if p(s[0]) then [s[0]] else []) + Filter(s[1..], p)
  }

  /** Filtering distributes over concatenation: the kept elements keep
      their relative order. */
  lemma {:induction false} FilterAppend<T>(a: seq<T>, b: seq<T>, p: T -> bool)
    ensures Filter(a + b, p) == Filter(a, p) + Filter(b, p)
  {
    if |a| > 0 {
      assert (a + b)[1..] == a[1..] + b;
      FilterAppend(a[1..], b, p);
    } else {
      assert a + b == b;
    }
  }

  /** A filter that every element passes is the identity. */
  lemma {:induction false} FilterKeepsAll<T>(s: seq<T>, p: T -> bool)
    requires forall k :: 0 <= k < |s| ==> p(s[k])
    ensures Filter(s, p) == s
  {
    if |s| > 0 {
      FilterKeepsAll(s[1..], p);
    }
  }

  /** A filter that every element but the one at `i` passes removes
      exactly that one. */
  lemma {:induction false} FilterDropsAt<T>(s: seq<T>, i: nat, p: T -> bool)
    requires i < |s| && !p(s[i])
    requires forall k :: 0 <= k < |s| && k != i ==> p(s[k])
    ensures Filter(s, p) == s[..i] + s[i + 1..]
  {
    if i == 0 {
      FilterKeepsAll(s[1..], p);
    } else {
      FilterDropsAt(s[1..], i - 1, p);
      assert s[..i] + s[i + 1..] == [s[0]] + (s[1..][..i - 1] + s[1..][i..]);
    }
  }

  /** No two elements of `s` share a key: a unique index, or the _id of a
      collection. */
  ghost predicate UniqueKeys<T>(s: seq<T>, key: T -> Id) {
    forall i, j | 0 <= i < j < |s| :: key(s[i]) != key(s[j])
  }

  /** Appending an element whose key is new keeps the keys unique. */
  lemma AppendFreshKey<T>(s: seq<T>, x: T, key: T -> Id)
    requires UniqueKeys(s, key)
    requires forall k :: 0 <= k < |s| ==> key(s[k]) != key(x)
    ensures UniqueKeys(s + [x], key)
  {
    var t := s + [x];
    forall i, j | 0 <= i < j < |t| ensures key(t[i]) != key(t[j]) {
      if j == |s| {
        assert t[i] == s[i] && t[j] == x;
      } else {
        assert t[i] == s[i] && t[j] == s[j];
      }
    }
  }

  /** Replacing an element by one with the same key keeps the keys unique. */
  lemma UpdateSameKey<T>(s: seq<T>, i: nat, x: T, key: T -> Id)
    requires i < |s| && UniqueKeys(s, key) && key(x) == key(s[i])
    ensures UniqueKeys(s[i := x], key)
  {
  }

  /** Removing one element keeps the keys unique. */
  lemma RemoveAtKeepsKeys<T>(s: seq<T>, i: nat, key: T -> Id)
    requires i < |s| && UniqueKeys(s, key)
    ensures UniqueKeys(s[..i] + s[i + 1..], key)
  {
    var t := s[..i] + s[i + 1..];
    forall a, b | 0 <= a < b < |t| ensures key(t[a]) != key(t[b]) {
      var a' := if a < i then a else a + 1;
      var b' := if b < i then b else b + 1;
      assert t[a] == s[a'] && t[b] == s[b'];
    }
  }

  // ---------------------------------------------------------------------
  // Strings

  /** A JavaScript string argument that counts as true in a condition:
      present and not empty. */
  predicate Truthy(s: Option<string>) {
    s.Some? && s.value != ""
  }

  /** String.prototype.startsWith; the comparison is case-sensitive. */
  predicate StartsWith(s: string, prefix: string) {
    |prefix| <= |s| && s[..|prefix|] == prefix
  }

  /** String.prototype.includes: `sub` occurs somewhere in `s`. */
  predicate Contains(s: string, sub: string)
    decreases |s|
  {
    StartsWith(s, sub) || (|s| > 0 && Contains(s[1..], sub))
  }

  /** An occurrence at position `i` is found by Contains. */
  lemma {:induction false} ContainsAt(s: string, sub: string, i: nat)
    requires i + |sub| <= |s| && s[i..i + |sub|] == sub
    ensures Contains(s, sub)
    decreases i
  {
    if i == 0 {
      assert s[..|sub|] == sub;
    } else {
      assert s[1..][i - 1..i - 1 + |sub|] == s[i..i + |sub|];
      ContainsAt(s[1..], sub, i - 1);
    }
  }

  /** Contains finds nothing else: every hit is an occurrence at some position. */
  lemma {:induction false} ContainsWitness(s: string, sub: string) returns (i: nat)
    requires Contains(s, sub)
    ensures i + |sub| <= |s| && s[i..i + |sub|] == sub
    decreases |s|
  {
    if StartsWith(s, sub) {
      i := 0;
    } else {
      var j := ContainsWitness(s[1..], sub);
      assert s[1..][j..j + |sub|] == s[j + 1..j + 1 + |sub|];
      i := j + 1;
    }
  }

  /** The upper-case letters whose lower case the model knows: A-Z and the
      Latin-1 capitals U+00C0-U+00DE except the multiplication sign. Each
      lower-cases to the single character 32 code points above it. */
  predicate IsUpper(c: char) {
    ('A' <= c <= 'Z') || ('\U{00C0}' <= c <= '\U{00DE}' && c != '\U{00D7}')
  }

  /** String.prototype.toLowerCase on one character, for the letters
      IsUpper names. */
  function LowerChar(c: char): (r: char)
    ensures !IsUpper(r)
    ensures IsUpper(c) ==> r as int == c as int + 32
    ensures !IsUpper(c) ==> r == c
  {
    if IsUpper(c) then (c as int + 32) as char else c
  }

  /** String.prototype.toLowerCase, character by character. */
  function Lower(s: string): (r: string)
    ensures |r| == |s|
    ensures forall i :: 0 <= i < |s| ==> r[i] == LowerChar(s[i])
    ensures forall i :: 0 <= i < |s| ==> !IsUpper(r[i])
  {
    seq(|s|, i requires 0 <= i < |s| => LowerChar(s[i]))
  }

  /** The characters String.prototype.trim removes: the ECMAScript
      WhiteSpace (tab, vertical tab, form feed, the byte-order mark and
      every space separator of Unicode category Zs) and LineTerminator
      (line feed, carriage return, U+2028, U+2029) characters. */
  predicate IsSpace(c: char) {
    || c == '\t' || c == '\n' || c == '\U{000B}' || c == '\U{000C}' || c == '\r'
    || c == ' ' || c == '\U{00A0}' || c == '\U{1680}'
    || ('\U{2000}' <= c <= '\U{200A}')
    || c == '\U{2028}' || c == '\U{2029}' || c == '\U{202F}' || c == '\U{205F}'
    || c == '\U{3000}' || c == '\U{FEFF}'
  }

  /** String.prototype.length: the number of UTF-16 code units, so a
      character outside the Basic Multilingual Plane counts twice. */
  function Utf16Length(s: string): (r: nat)
    ensures |s| <= r <= 2 * |s|
    ensures (forall i :: 0 <= i < |s| ==> s[i] as int < 0x10000) ==> r == |s|
  {
    if |s| == 0 then 0
    else Utf16Length(s[..|s| - 1]) + (if s[|s| - 1] as int < 0x10000 then 1 else 2)
  }

  /** Three emoji are six code units long. */
  lemma EmojiCountTwice()
    ensures Utf16Length("\U{1F600}\U{1F600}\U{1F600}") == 6
  {
    var e := "\U{1F600}\U{1F600}\U{1F600}";
    assert e[..2][..1] == "\U{1F600}" && e[..2] == "\U{1F600}\U{1F600}";
  }

  function TrimStart(s: string): (r: string)
    ensures |r| <= |s|
    ensures |r| > 0 ==> !IsSpace(r[0])
    ensures r == s[|s| - |r|..]
  {
    if |s| > 0 && IsSpace(s[0]) then TrimStart(s[1..]) else s
  }

  function TrimEnd(s: string): (r: string)
    ensures |r| <= |s|
    ensures |r| > 0 ==> !IsSpace(r[|r| - 1])
    ensures r == s[..|r|]
  {
    if |s| > 0 && IsSpace(s[|s| - 1]) then TrimEnd(s[..|s| - 1]) else s
  }

  /** String.prototype.trim. */
  function Trim(s: string): string {
    TrimEnd(TrimStart(s))
  }

  /** How the user schema stores an email (lowercase, then trim); the same
      casting applies to an email used in a query filter. */
  function NormalizeEmail(s: string): string {
    Trim(Lower(s))
  }

  lemma {:induction false} TrimStartOfTrimmed(s: string)
    requires |s| == 0 || !IsSpace(s[0])
    ensures TrimStart(s) == s
  {
  }

  lemma {:induction false} TrimEndOfTrimmed(s: string)
    requires |s| == 0 || !IsSpace(s[|s| - 1])
    ensures TrimEnd(s) == s
  {
  }

  /** Trimming twice is trimming once. */
  lemma TrimIdempotent(s: string)
    ensures Trim(Trim(s)) == Trim(s)
  {
    var a := TrimStart(s);
    var b := TrimEnd(a);
    if |b| > 0 {
      assert b[0] == a[0];
      TrimStartOfTrimmed(b);
    }
    TrimEndOfTrimmed(TrimStart(b));
  }

  /** A string with no upper-case letter is its own lower case. */
  lemma LowerOfLower(s: string)
    requires forall i :: 0 <= i < |s| ==> !IsUpper(s[i])
    ensures Lower(s) == s
  {
  }

  /** Lower-casing before the schema's own normalisation changes nothing:
      a lookup by `email.toLowerCase()` finds what a lookup by `email` does. */
  lemma NormalizeAfterLower(s: string)
    ensures NormalizeEmail(Lower(s)) == NormalizeEmail(s)
  {
    LowerOfLower(Lower(s));
  }

  /** A piece of a string with no upper-case letter has none. */
  lemma SliceKeepsLower(s: string, lo: nat, hi: nat)
    requires lo <= hi <= |s|
    requires forall i :: 0 <= i < |s| ==> !IsUpper(s[i])
    ensures forall i :: 0 <= i < hi - lo ==> !IsUpper(s[lo..hi][i])
  {
    forall i | 0 <= i < hi - lo
      ensures !IsUpper(s[lo..hi][i])
    {
      assert s[lo..hi][i] == s[lo + i];
    }
  }

  /** Trimming a string with no upper-case letter leaves none. */
  lemma TrimKeepsLower(s: string)
    requires forall i :: 0 <= i < |s| ==> !IsUpper(s[i])
    ensures forall i :: 0 <= i < |Trim(s)| ==> !IsUpper(Trim(s)[i])
  {
    var a := TrimStart(s);
    assert a == s[|s| - |a|..|s|];
    SliceKeepsLower(s, |s| - |a|, |s|);
    var t := TrimEnd(a);
    assert t == a[0..|t|];
    SliceKeepsLower(a, 0, |t|);
  }

  /** A stored (normalised) email normalises to itself. */
  lemma NormalizeEmailIdempotent(s: string)
    ensures NormalizeEmail(NormalizeEmail(s)) == NormalizeEmail(s)
  {
    var t := Trim(Lower(s));
    TrimKeepsLower(Lower(s));
    LowerOfLower(t);
    TrimIdempotent(Lower(s));
  }

  /** An email in the form the schema stores it: no upper-case
      letter and no white space at either end. */
  ghost predicate IsStoredEmail(e: string) {
    && (forall k | 0 <= k < |e| :: !IsUpper(e[k]))
    && (|e| == 0 || (!IsSpace(e[0]) && !IsSpace(e[|e| - 1])))
  }

  /** Normalising always produces a stored-form email. */
  lemma NormalizedIsStored(s: string)
    ensures IsStoredEmail(NormalizeEmail(s))
  {
    TrimKeepsLower(Lower(s));
    var a := TrimStart(Lower(s));
    var t := TrimEnd(a);
    if |t| > 0 {
      assert t[0] == a[0];
    }
  }

  /** A stored-form email is its own normal form. */
  lemma StoredIsNormalized(e: string)
    requires IsStoredEmail(e)
    ensures NormalizeEmail(e) == e
  {
    LowerOfLower(e);
    TrimStartOfTrimmed(e);
    TrimEndOfTrimmed(e);
  }
}
