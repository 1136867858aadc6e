/**
 * The webhook secret: how `generateWebhookSecret` builds a fresh one, and how
 * `autoEnableWebhook` chooses between the stored secret and a fresh one and
 * what it writes back to the `razorpay_flags` config bag.
 */
module WebhookSecret {
  import opened WebhookTypes

  // The alphabet of generateWebhookSecret, written in four pieces; their
  // concatenation is the source's 90-character string, in the same order.
  const Digits: string := "0123456789"
  const UpperLetters: string := "ABCDEFGHIJKLMNOPQRSTUVWXYZ"
  const Symbols: string := "-=~!@#$%^&*()_+,./<>?;:[]{}|"
  const LowerLetters: string := "abcdefghijklmnopqrstuvwxyz"
  const Alphabet: string := Digits + UpperLetters + Symbols + LowerLetters

  /** `substr(..., 0, 20)`: the number of characters a secret keeps. */
  const SecretLength: nat := 20

  /** Config keys of the `razorpay_flags` bag. */
  const SecretKey: string := "webhook_secret"
  const EnableAtKey: string := "webhook_enable_at"

  predicate Distinct(s: string) {
    forall i, j :: 0 <= i < j < |s| ==> s[i] != s[j]
  }

  /** The length of Alphabet. */
  const AlphabetSize: nat := 90

  /**
   * `order` is one way `str_shuffle` can rearrange the alphabet: a
   * permutation of its positions, the k-th character of the result being
   * Alphabet[order[k]].
   */
  predicate IsShuffleOrder(order: seq<int>) {
    && |order| == AlphabetSize
    && (forall k :: 0 <= k < |order| ==> 0 <= order[k] < AlphabetSize)
    && (forall i, j :: 0 <= i < j < |order| ==> order[i] != order[j])
  }

  /** Position of a punctuation character within Symbols, or -1. */
  function SymbolRank(c: char): int {
    if c == '-' then 0 else if c == '=' then 1 else if c == '~' then 2 else if c == '!' then 3
    else if c == '@' then 4 else if c == '#' then 5 else if c == '$' then 6 else if c == '%' then 7
    else if c == '^' then 8 else if c == '&' then 9 else if c == '*' then 10 else if c == '(' then 11
    else if c == ')' then 12 else if c == '_' then 13 else if c == '+' then 14 else if c == ',' then 15
    else if c == '.' then 16 else if c == '/' then 17 else if c == '<' then 18 else if c == '>' then 19
    else if c == '?' then 20 else if c == ';' then 21 else if c == ':' then 22 else if c == '[' then 23
    else if c == ']' then 24 else if c == '{' then 25 else if c == '}' then 26 else if c == '|' then 27
    else -1
  }

  /** Position of a character within Alphabet (meaningful for the characters of Alphabet only). */
  function Rank(c: char): int {
    if '0' <= c <= '9' then c as int - '0' as int
    else if 'A' <= c <= 'Z' then 10 + (c as int - 'A' as int)
    else if 'a' <= c <= 'z' then 64 + (c as int - 'a' as int)
    else 36 + SymbolRank(c)
  }

  /** Enumerates a small index so that each literal position can be evaluated. */
  lemma SmallIndex(i: int)
    requires 0 <= i < 28
    ensures i == 0 || i == 1 || i == 2 || i == 3 || i == 4 || i == 5 || i == 6
      || i == 7 || i == 8 || i == 9 || i == 10 || i == 11 || i == 12 || i == 13
      || i == 14 || i == 15 || i == 16 || i == 17 || i == 18 || i == 19 || i == 20
      || i == 21 || i == 22 || i == 23 || i == 24 || i == 25 || i == 26 || i == 27
  {
  }

  /** Each piece of the alphabet is ranked by its position plus the piece's offset. */
  lemma PieceRanked(piece: string, offset: int)
    requires piece == Digits || piece == UpperLetters || piece == Symbols || piece == LowerLetters
    requires offset == (if piece == Digits then 0 else if piece == UpperLetters then 10
                        else if piece == Symbols then 36 else 64)
    ensures forall i :: 0 <= i < |piece| ==> Rank(piece[i]) == offset + i
  {
    forall i | 0 <= i < |piece| ensures Rank(piece[i]) == offset + i {
      SmallIndex(i);
    }
  }

  /** Rank inverts indexing into Alphabet, hence Alphabet has no repeated character. */
  lemma AlphabetRanked()
    ensures |Alphabet| == 90
    ensures forall i :: 0 <= i < |Alphabet| ==> Rank(Alphabet[i]) == i
  {
    PieceRanked(Digits, 0);
    PieceRanked(UpperLetters, 10);
    PieceRanked(Symbols, 36);
    PieceRanked(LowerLetters, 64);
    forall i | 0 <= i < |Alphabet| ensures Rank(Alphabet[i]) == i {
      if i < 10 {
        assert Alphabet[i] == Digits[i];
      } else if i < 36 {
        assert Alphabet[i] == UpperLetters[i - 10];
      } else if i < 64 {
        assert Alphabet[i] == Symbols[i - 36];
      } else {
        assert Alphabet[i] == LowerLetters[i - 64];
      }
    }
  }

  /** The alphabet has 90 characters, no two alike. */
  lemma AlphabetDistinct()
    ensures |Alphabet| == 90 && Distinct(Alphabet)
  {
    AlphabetRanked();
    forall i, j | 0 <= i < j < |Alphabet| ensures Alphabet[i] != Alphabet[j] {
      assert Rank(Alphabet[i]) != Rank(Alphabet[j]);
    }
  }

  /** `str_shuffle(Alphabet)` for the rearrangement `order`: all 90 characters, each once. */
  function Shuffled(order: seq<int>): (s: string)
    requires IsShuffleOrder(order)
    ensures |s| == AlphabetSize && Distinct(s)
    ensures forall k :: 0 <= k < |s| ==> s[k] in Alphabet
  {
    AlphabetDistinct();
    seq(AlphabetSize, k requires 0 <= k < AlphabetSize => Alphabet[order[k]])
  }

  /** Dropping characters from the end keeps a string free of repetitions. */
  lemma PrefixDistinct(s: string, n: nat)
    requires n <= |s| && Distinct(s)
    ensures Distinct(s[..n])
  {
  }

  /**
   * generateWebhookSecret, with the shuffle as a parameter: the first twenty
   * characters of a rearrangement of the alphabet, hence twenty distinct
   * characters of the alphabet.
   */
  function GenerateWebhookSecret(order: seq<int>): (secret: string)
    requires IsShuffleOrder(order)
    ensures |secret| == SecretLength
    ensures secret <= Shuffled(order)
    ensures forall k :: 0 <= k < |secret| ==> secret[k] in Alphabet
    ensures Distinct(secret)
  {
    var shuffled := Shuffled(order);
    PrefixDistinct(shuffled, SecretLength);
    shuffled[..SecretLength]
  }

  /** `$settingFlags['webhook_secret']`: null when the bag lacks the key. */
  function Lookup(flags: map<string, FlagValue>, key: string): Option<FlagValue> {
    if key in flags then Some(flags[key]) else None
  }

  /** PHP's `empty()` on a flag: null, "", "0" and 0 are empty. */
  predicate IsEmptyFlag(v: Option<FlagValue>) {
    match v
    case None => true
    case Some(Str(s)) => s == "" || s == "0"
    case Some(Int(n)) => n == 0
  }

  /** A string of secret length is never empty in PHP's sense. */
  lemma FullLengthNotEmpty(s: string)
    requires |s| == SecretLength
    ensures !IsEmptyFlag(Some(Str(s)))
  {
    assert |"0"| == 1;
  }

  /** The secret a run uses: the stored one unless it is empty, else a fresh one. */
  function ChooseSecret(flags: map<string, FlagValue>, order: seq<int>): (secret: FlagValue)
    requires IsShuffleOrder(order)
    ensures !IsEmptyFlag(Lookup(flags, SecretKey)) ==> secret == flags[SecretKey]
    ensures IsEmptyFlag(Lookup(flags, SecretKey)) ==> secret == Str(GenerateWebhookSecret(order))
    ensures !IsEmptyFlag(Some(secret))
  {
    if IsEmptyFlag(Lookup(flags, SecretKey)) then
      var generated := GenerateWebhookSecret(order);
      FullLengthNotEmpty(generated);
      Str(generated)
    else
      flags[SecretKey]
  }

  /** The bag written back: exactly the secret and the enabling time. */
  function SavedFlags(secret: FlagValue, now: int): (flags: map<string, FlagValue>)
    ensures flags.Keys == {SecretKey, EnableAtKey}
  {
    map[SecretKey := secret, EnableAtKey := Int(now)]
  }

  /**
   * Once a run has saved its flags, the next run reuses that secret verbatim,
   * whatever the next shuffle is and whatever the time.
   */
  lemma SecretStableAcrossRuns(flags: map<string, FlagValue>, first: seq<int>, second: seq<int>, now: int)
    requires IsShuffleOrder(first) && IsShuffleOrder(second)
    ensures ChooseSecret(SavedFlags(ChooseSecret(flags, first), now), second) == ChooseSecret(flags, first)
  {
    var saved := SavedFlags(ChooseSecret(flags, first), now);
    assert Lookup(saved, SecretKey) == Some(ChooseSecret(flags, first));
  }
}
