/**
 * The macOS keychain side of the certificate manager: the find-identity check,
 * the two parsers of `security` output, and the cleanup pass that deletes stale
 * copies of the root CA before a new one is generated.
 */
module Keychain {
  import opened Outcomes
  import opened RustText
  import opened Environment

  /** The common name of the generated root certificate. */
  const CaName: string := "Mitmproxy Desktop Root CA"

  /** How `security find-certificate -Z` introduces a certificate's SHA-1 digest. */
  const Sha1Prefix: string := "SHA-1 hash:"

  /**
   * verify_cert_in_keychain: an error when `security` cannot be spawned, and
   * otherwise whether its output names the CA; the exit status is not looked at.
   */
  function VerifyCertInKeychain(answer: Option<Exit>): (r: Result<bool, Error>)
    ensures r.Err? <==> answer.None?
    ensures r.Err? ==> r.error == SpawnFailed(FindIdentity)
    ensures r.Ok? ==> (r.value <==> Occurs(answer.value.stdout, CaName))
  {
    match answer
    case None => Err(SpawnFailed(FindIdentity))
    case Some(out) =>
      ContainsIff(out.stdout, CaName);
      Ok(Contains(out.stdout, CaName))
  }

  // ---------------------------------------------------------------------------
  // Parsing `security list-keychains`

  /** Neither the first nor the last character of `k` is a double quote. */
  predicate Unquoted(k: string) {
    k != [] ==> k[0] != '"' && k[|k| - 1] != '"'
  }

  /** One listed keychain line with the surrounding blanks and then the quotes removed. */
  function CleanLine(line: string): (k: string)
    ensures Unquoted(k)
  {
    TrimMatches(Trim(line), '"')
  }

  /** What cleaning a listed line may remove: blanks and double quotes. */
  predicate Stripped(c: char) {
    IsWhitespace(c) || c == '"'
  }

  /** Blanks and quotes are both among what cleaning removes. */
  lemma StrippedCovers()
    ensures forall c :: IsWhitespace(c) ==> Stripped(c)
    ensures forall c :: Is('"')(c) ==> Stripped(c)
  {
  }

  /** Cutting blanks and then quotes away cuts away only what cleaning may remove. */
  lemma BlanksThenQuotes(line: string, a: nat, t: string, b: nat, k: string)
    requires Cut(line, a, t, IsWhitespace) && Cut(t, b, k, Is('"'))
    ensures Cut(line, a + b, k, Stripped)
  {
    StrippedCovers();
    CutOfCut(line, a, t, IsWhitespace, b, k, Is('"'), Stripped);
  }

  /** Trimming blanks cuts only blanks away. */
  lemma BlanksCut(line: string)
    ensures Cut(line, TrimOffset(line, IsWhitespace), Trim(line), IsWhitespace)
  {
    var t := TrimStartMatches(line, IsWhitespace);
    CutBothEnds(line, t, TrimEndMatches(t, IsWhitespace), IsWhitespace);
  }

  /** Trimming the quotes off the trimmed line cuts only quotes away. */
  lemma QuotesCut(line: string)
    ensures Cut(Trim(line), TrimOffset(Trim(line), Is('"')), CleanLine(line), Is('"'))
  {
    var t := TrimStartMatches(Trim(line), Is('"'));
    CutBothEnds(Trim(line), t, TrimEndMatches(t, Is('"')), Is('"'));
  }

  /** A cleaned line is a piece of the line with only blanks and quotes cut away on either side. */
  lemma CleanLineIsPiece(line: string)
    ensures Cut(line, TrimOffset(line, IsWhitespace) + TrimOffset(Trim(line), Is('"')), CleanLine(line), Stripped)
  {
    BlanksCut(line);
    QuotesCut(line);
    BlanksThenQuotes(line, TrimOffset(line, IsWhitespace), Trim(line), TrimOffset(Trim(line), Is('"')), CleanLine(line));
  }

  /** Every line cleaned. */
  function CleanLines(lines: seq<string>): (cleaned: seq<string>)
    ensures |cleaned| == |lines|
    ensures forall k :: k in cleaned ==> Unquoted(k)
  {
    if lines == [] then [] else [CleanLine(lines[0])] + CleanLines(lines[1..])
  }

  /** The cleaned lines that name a keychain, in order. */
  function KeychainPaths(cleaned: seq<string>): (paths: seq<string>)
    ensures |paths| <= |cleaned|
    ensures forall k :: k in paths ==> Contains(k, "keychain") && k in cleaned
  {
    if cleaned == [] then []
    else if Contains(cleaned[0], "keychain") then [cleaned[0]] + KeychainPaths(cleaned[1..])
    else KeychainPaths(cleaned[1..])
  }

  /** The keychains the cleanup pass visits, from the output of `security list-keychains`. */
  function ParseKeychains(stdout: string): seq<string> {
    KeychainPaths(CleanLines(Lines(stdout)))
  }

  /** At most one keychain per listed line; each names a keychain and carries no quote at either end. */
  lemma ParseKeychainsShape(stdout: string)
    ensures |ParseKeychains(stdout)| <= |Lines(stdout)|
    ensures forall k :: k in ParseKeychains(stdout) ==>
              Occurs(k, "keychain") && k[0] != '"' && k[|k| - 1] != '"'
  {
    forall k | k in ParseKeychains(stdout)
      ensures Occurs(k, "keychain") && k != [] && Unquoted(k)
    {
      ContainsIff(k, "keychain");
    }
  }

  /** `a` is `b` with some elements left out and the rest in their order. */
  ghost predicate IsSubsequence<T>(a: seq<T>, b: seq<T>)
    decreases |b|
  {
    a == [] || (b != [] && ((a[0] == b[0] && IsSubsequence(a[1..], b[1..])) || IsSubsequence(a, b[1..])))
  }

  /** The paths keep the order of the lines they come from. */
  lemma {:induction false} KeychainPathsKeepOrder(cleaned: seq<string>)
    ensures IsSubsequence(KeychainPaths(cleaned), cleaned)
  {
    if cleaned != [] {
      KeychainPathsKeepOrder(cleaned[1..]);
      var paths := KeychainPaths(cleaned);
      if Contains(cleaned[0], "keychain") {
        assert paths[1..] == KeychainPaths(cleaned[1..]);
      }
    }
  }

  /** Every line that names a keychain is kept. */
  lemma {:induction false} KeychainPathsComplete(cleaned: seq<string>)
    ensures forall i :: 0 <= i < |cleaned| && Contains(cleaned[i], "keychain") ==> cleaned[i] in KeychainPaths(cleaned)
  {
    if cleaned != [] {
      KeychainPathsComplete(cleaned[1..]);
      forall i | 0 <= i < |cleaned| && Contains(cleaned[i], "keychain")
        ensures cleaned[i] in KeychainPaths(cleaned)
      {
        if i > 0 {
          assert cleaned[i] == cleaned[1..][i - 1];
        }
      }
    }
  }

  // ---------------------------------------------------------------------------
  // Which lines a parser keeps, and how many

  /** The positions of the lines of `src` that satisfy `keep`. */
  ghost function Kept(src: seq<string>, keep: string -> bool): set<int> {
    set i | 0 <= i < |src| && keep(src[i])
  }

  /** Each of `out` is `f` of a line of `src` that satisfies `keep`, the one at the same place in `idx`. */
  ghost predicate Picks(src: seq<string>, keep: string -> bool, f: string -> string, idx: seq<int>, out: seq<string>) {
    |idx| == |out| &&
    forall k :: 0 <= k < |idx| ==> 0 <= idx[k] < |src| && keep(src[idx[k]]) && out[k] == f(src[idx[k]])
  }

  ghost predicate Increasing(idx: seq<int>) {
    forall k, m :: 0 <= k < m < |idx| ==> idx[k] < idx[m]
  }

  /** Every line of `src` that satisfies `keep` has its position in `idx`. */
  ghost predicate Covers(src: seq<string>, keep: string -> bool, idx: seq<int>) {
    forall i :: 0 <= i < |src| && keep(src[i]) ==> i in idx
  }

  /**
   * `out` holds, in order and once each, `f` of exactly the lines of `src`
   * that satisfy `keep`; `idx` lists the positions of those lines.
   */
  ghost predicate Selects(src: seq<string>, keep: string -> bool, f: string -> string, idx: seq<int>, out: seq<string>) {
    Picks(src, keep, f, idx, out) && Increasing(idx) && Covers(src, keep, idx)
  }

  /** Every position moved one line down. */
  function Shift(idx: seq<int>): (moved: seq<int>)
    ensures |moved| == |idx| && forall k :: 0 <= k < |idx| ==> moved[k] == idx[k] + 1
  {
    if idx == [] then [] else [idx[0] + 1] + Shift(idx[1..])
  }

  lemma PicksShift(src: seq<string>, keep: string -> bool, f: string -> string, idx: seq<int>, out: seq<string>)
    requires src != [] && Picks(src[1..], keep, f, idx, out)
    ensures Picks(src, keep, f, Shift(idx), out)
  {
    var moved := Shift(idx);
    forall k | 0 <= k < |idx|
      ensures 0 <= moved[k] < |src| && src[moved[k]] == src[1..][idx[k]]
    {
    }
  }

  lemma PicksFirst(src: seq<string>, keep: string -> bool, f: string -> string, idx: seq<int>, out: seq<string>)
    requires src != [] && keep(src[0]) && Picks(src, keep, f, idx, out)
    ensures Picks(src, keep, f, [0] + idx, [f(src[0])] + out)
  {
    var all := [0] + idx;
    var outs := [f(src[0])] + out;
    forall k | 1 <= k < |all|
      ensures all[k] == idx[k - 1] && outs[k] == out[k - 1]
    {
    }
  }

  lemma IncreasingShift(idx: seq<int>)
    requires Increasing(idx)
    ensures Increasing(Shift(idx))
  {
  }

  lemma IncreasingFirst(x: int, idx: seq<int>)
    requires Increasing(idx) && forall k :: 0 <= k < |idx| ==> x < idx[k]
    ensures Increasing([x] + idx)
  {
    var all := [x] + idx;
    forall k | 1 <= k < |all|
      ensures all[k] == idx[k - 1]
    {
    }
  }

  lemma CoversShift(src: seq<string>, keep: string -> bool, idx: seq<int>, first: seq<int>)
    requires src != [] && Covers(src[1..], keep, idx)
    requires keep(src[0]) ==> 0 in first
    ensures Covers(src, keep, first + Shift(idx))
  {
    var moved := Shift(idx);
    forall i | 1 <= i < |src| && keep(src[i])
      ensures i in moved
    {
      assert src[i] == src[1..][i - 1];
      var k :| 0 <= k < |idx| && idx[k] == i - 1;
      assert moved[k] == i;
    }
  }

  /** A selection from the lines after the first extends to one from all lines. */
  lemma SelectsStep(src: seq<string>, keep: string -> bool, f: string -> string, idx: seq<int>, out: seq<string>)
    requires src != [] && Selects(src[1..], keep, f, idx, out)
    ensures keep(src[0]) ==> Selects(src, keep, f, [0] + Shift(idx), [f(src[0])] + out)
    ensures !keep(src[0]) ==> Selects(src, keep, f, Shift(idx), out)
  {
    PicksShift(src, keep, f, idx, out);
    IncreasingShift(idx);
    if keep(src[0]) {
      PicksFirst(src, keep, f, Shift(idx), out);
      IncreasingFirst(0, Shift(idx));
      CoversShift(src, keep, idx, [0]);
    } else {
      CoversShift(src, keep, idx, []);
      assert [] + Shift(idx) == Shift(idx);
    }
  }

  /** Every position of `t` moved one down. */
  ghost function Moved(t: set<int>): set<int> {
    set j | j in t :: j + 1
  }

  /** Moving a set of positions one down keeps its size. */
  lemma {:induction false} MovedCard(t: set<int>)
    ensures |Moved(t)| == |t|
    decreases |t|
  {
    if t != {} {
      assert exists y :: y in t by {
        if forall y :: y !in t {
          assert false;
        }
      }
      var x :| x in t;
      MovedCard(t - {x});
      forall y
        ensures y in Moved(t) <==> y in Moved(t - {x}) + {x + 1}
      {
        if y in Moved(t) && y != x + 1 {
          assert y - 1 in t - {x};
        }
      }
      assert Moved(t) == Moved(t - {x}) + {x + 1};
    }
  }

  /** The matching lines are the first one, if it matches, and the matching lines after it. */
  lemma KeptStep(src: seq<string>, keep: string -> bool)
    requires src != []
    ensures |Kept(src, keep)| == (if keep(src[0]) then 1 else 0) + |Kept(src[1..], keep)|
  {
    var rest := Kept(src[1..], keep);
    MovedCard(rest);
    forall i | 1 <= i < |src|
      ensures i in Kept(src, keep) <==> i in Moved(rest)
    {
      assert src[i] == src[1..][i - 1];
      if i in Kept(src, keep) {
        assert i - 1 in rest;
      }
    }
    if keep(src[0]) {
      assert Kept(src, keep) == {0} + Moved(rest);
    } else {
      assert Kept(src, keep) == Moved(rest);
    }
  }

  /** Whether a cleaned line names a keychain. */
  predicate NamesKeychain(line: string) {
    Contains(line, "keychain")
  }

  function Verbatim(line: string): string {
    line
  }

  /** The paths are exactly the lines that name a keychain, once each and in order. */
  lemma {:induction false} KeychainPathsSelect(cleaned: seq<string>)
    ensures exists idx :: Selects(cleaned, NamesKeychain, Verbatim, idx, KeychainPaths(cleaned))
  {
    if cleaned == [] {
      assert Selects(cleaned, NamesKeychain, Verbatim, [], KeychainPaths(cleaned));
    } else {
      KeychainPathsSelect(cleaned[1..]);
      var idx :| Selects(cleaned[1..], NamesKeychain, Verbatim, idx, KeychainPaths(cleaned[1..]));
      SelectsStep(cleaned, NamesKeychain, Verbatim, idx, KeychainPaths(cleaned[1..]));
      if NamesKeychain(cleaned[0]) {
        assert Selects(cleaned, NamesKeychain, Verbatim, [0] + Shift(idx), KeychainPaths(cleaned));
      } else {
        assert Selects(cleaned, NamesKeychain, Verbatim, Shift(idx), KeychainPaths(cleaned));
      }
    }
  }

  /** One path per line that names a keychain: a repeated line is cleaned as often as it is listed. */
  lemma {:induction false} KeychainPathsCount(cleaned: seq<string>)
    ensures |KeychainPaths(cleaned)| == |Kept(cleaned, NamesKeychain)|
  {
    if cleaned != [] {
      KeychainPathsCount(cleaned[1..]);
      KeptStep(cleaned, NamesKeychain);
    }
  }

  // ---------------------------------------------------------------------------
  // Parsing `security find-certificate -Z`

  /** `line.split_whitespace().last().unwrap_or("")`. */
  function HashToken(line: string): (hash: string)
    ensures hash != [] ==> Solid(hash)
    ensures (exists k :: 0 <= k < |line| && !IsWhitespace(line[k])) ==> hash != []
  {
    var words := SplitWhitespace(line);
    assert words != [] ==> words[|words| - 1] in words;
    LastWord(line).GetOr("")
  }

  /**
   * The token is taken from the line: it is "" exactly for a blank line, and
   * otherwise it stands in the line after whitespace (or at its start) with
   * only whitespace after it.
   */
  lemma HashTokenIsLastWord(line: string)
    ensures HashToken(line) == [] <==> Blank(line)
    ensures HashToken(line) != [] ==> exists i :: LastRunAt(line, HashToken(line), i)
  {
    var words := SplitWhitespace(line);
    assert [] + line == line;
    LastWordAt(line, line, []);
    if words == [] {
      BlankWithoutWords(line);
    } else {
      assert HashToken(line) == Final(words);
      if Blank(line) {
        NoWordsInBlank(line, []);
      }
    }
  }

  /** Any non-empty word that ends the line that way is the token itself. */
  lemma HashTokenIsTheLastWord(line: string, w: string, i: int)
    requires w != [] && Solid(w) && LastRunAt(line, w, i)
    ensures HashToken(line) == w
  {
    assert !IsWhitespace(line[i]) by {
      assert line[i] == line[i..i + |w|][0] == w[0];
    }
    HashTokenIsLastWord(line);
    var j :| LastRunAt(line, HashToken(line), j);
    LastRunUnique(line, w, i, HashToken(line), j);
  }

  /** A line that starts with the SHA-1 prefix always has a last word: HashToken never returns "". */
  lemma Sha1LineHasToken(line: string)
    requires Sha1Prefix <= line
    ensures HashToken(line) != [] && Solid(HashToken(line))
  {
    assert line[0] == Sha1Prefix[0] == 'S';
    assert !IsWhitespace(line[0]);
    var words := SplitWhitespace(line);
    assert words != [];
    assert words[|words| - 1] in words;
  }

  /** The tokens the deletion loop extracts from the lines of one find-certificate output. */
  function Sha1Hashes(lines: seq<string>): (hashes: seq<string>)
    ensures |hashes| <= |lines|
    ensures forall h :: h in hashes ==> h != [] && Solid(h)
  {
    if lines == [] then []
    else if Sha1Prefix <= lines[0] then
      Sha1LineHasToken(lines[0]);
      [HashToken(lines[0])] + Sha1Hashes(lines[1..])
    else
      Sha1Hashes(lines[1..])
  }

  /** Whether a line of find-certificate's output carries a hash. */
  predicate IsSha1Line(line: string) {
    Sha1Prefix <= line
  }

  /** The tokens are the last words of exactly the "SHA-1 hash:" lines, once each and in order. */
  lemma {:induction false} Sha1HashesSelect(lines: seq<string>)
    ensures exists idx :: Selects(lines, IsSha1Line, HashToken, idx, Sha1Hashes(lines))
  {
    if lines == [] {
      assert Selects(lines, IsSha1Line, HashToken, [], Sha1Hashes(lines));
    } else {
      Sha1HashesSelect(lines[1..]);
      var idx :| Selects(lines[1..], IsSha1Line, HashToken, idx, Sha1Hashes(lines[1..]));
      SelectsStep(lines, IsSha1Line, HashToken, idx, Sha1Hashes(lines[1..]));
      if IsSha1Line(lines[0]) {
        assert Selects(lines, IsSha1Line, HashToken, [0] + Shift(idx), Sha1Hashes(lines));
      } else {
        assert Selects(lines, IsSha1Line, HashToken, Shift(idx), Sha1Hashes(lines));
      }
    }
  }

  /** Every token comes from a "SHA-1 hash:" line. */
  lemma Sha1HashesFromLines(lines: seq<string>, h: string)
    requires h in Sha1Hashes(lines)
    ensures exists i :: 0 <= i < |lines| && Sha1Prefix <= lines[i] && HashToken(lines[i]) == h
  {
    Sha1HashesSelect(lines);
    var idx :| Selects(lines, IsSha1Line, HashToken, idx, Sha1Hashes(lines));
    var k :| 0 <= k < |Sha1Hashes(lines)| && Sha1Hashes(lines)[k] == h;
    assert IsSha1Line(lines[idx[k]]);
  }

  /** One token per "SHA-1 hash:" line. */
  lemma {:induction false} Sha1HashesCount(lines: seq<string>)
    ensures |Sha1Hashes(lines)| == |Kept(lines, IsSha1Line)|
  {
    if lines != [] {
      Sha1HashesCount(lines[1..]);
      KeptStep(lines, IsSha1Line);
    }
  }

  /** A bare "SHA-1 hash:" line yields the word "hash:", not the empty string. */
  lemma BareSha1Line()
    ensures HashToken(Sha1Prefix) == "hash:"
    ensures Sha1Hashes([Sha1Prefix]) == ["hash:"]
  {
    SplitSha1Prefix();
  }

  lemma SplitSha1Prefix()
    ensures SplitWhitespace(Sha1Prefix) == ["SHA-1", "hash:"]
  {
    assert Sha1Prefix == "SHA-1" + " " + "hash:";
    assert Solid("SHA-1") && Solid("hash:");
    SplitTwoWords("SHA-1", "hash:");
  }

  /** Two words with one blank between them split into those two words. */
  lemma SplitTwoWords(first: string, second: string)
    requires first != [] && second != [] && Solid(first) && Solid(second)
    ensures SplitWhitespace(first + " " + second) == [first, second]
  {
    WordsOfSolid(first, " " + second, []);
    assert first + " " + second == first + (" " + second);
    assert [] + first == first;
    assert (" " + second)[1..] == second;
    assert WordsFrom(" " + second, first) == [first] + WordsFrom(second, []);
    WordsOfSolid(second, [], []);
    assert second + [] == second && [] + second == second;
    assert WordsFrom(second, []) == WordsFrom([], second) == [second];
  }

  /** Reading a run of non-whitespace characters only extends the current word. */
  lemma {:induction false} WordsOfSolid(run: string, rest: string, word: string)
    requires Solid(run) && Solid(word)
    ensures WordsFrom(run + rest, word) == WordsFrom(rest, word + run)
    decreases |run|
  {
    if run != [] {
      assert (run + rest)[1..] == run[1..] + rest;
      assert word + [run[0]] + run[1..] == word + run;
      WordsOfSolid(run[1..], rest, word + [run[0]]);
    } else {
      assert run + rest == rest && word + run == word;
    }
  }

  // ---------------------------------------------------------------------------
  // The cleanup pass

  /** What the deletion loop spawns for the remaining `lines` of one keychain's listing. */
  function DeleteListed(lines: seq<string>, keychain: string, run: Command -> Option<Exit>): (r: Ran)
    ensures r.result.Err? ==> r.result.error.SpawnFailed?
    ensures r.result.Err? ==>
              var failed := r.result.error.command;
              failed.DeleteCertificate? && failed.keychain == keychain && run(failed).None?
    decreases |lines|
  {
    if lines == [] then Ran(Ok(()), [])
    else if Sha1Prefix <= lines[0] && HashToken(lines[0]) != [] then
      var delete := DeleteCertificate(HashToken(lines[0]), keychain);
      if run(delete).None? then Ran(Err(SpawnFailed(delete)), [delete])
      else Prepend([delete], DeleteListed(lines[1..], keychain, run))
    else
      DeleteListed(lines[1..], keychain, run)
  }

  /** Go on with the remaining keychains unless `r` failed. */
  function AndThen(r: Ran, keychains: seq<string>, run: Command -> Option<Exit>): (s: Ran)
    requires r.result.Err? ==> r.result.error.SpawnFailed?
    ensures s.result.Err? ==> s.result.error.SpawnFailed?
    decreases |keychains|, 1
  {
    if r.result.Err? then r else Prepend(r.log, CleanKeychains(keychains, run))
  }

  /** What the loop over the keychains spawns. */
  function CleanKeychains(keychains: seq<string>, run: Command -> Option<Exit>): (r: Ran)
    ensures r.result.Err? ==> r.result.error.SpawnFailed?
    ensures keychains == [] ==> r == Ran(Ok(()), [])
    decreases |keychains|, 0
  {
    if keychains == [] then Ran(Ok(()), [])
    else
      var find := FindCertificate(keychains[0]);
      match run(find)
      case None => Ran(Err(SpawnFailed(find)), [find])
      case Some(out) =>
        Prepend([find], AndThen(DeleteListed(Lines(out.stdout), keychains[0], run), keychains[1..], run))
  }

  /** The keychains are visited in order: the pass opens with find-certificate on the first one. */
  lemma CleanKeychainsStartsWithFind(keychains: seq<string>, run: Command -> Option<Exit>)
    requires keychains != []
    ensures CleanKeychains(keychains, run).log != []
    ensures CleanKeychains(keychains, run).log[0] == FindCertificate(keychains[0])
  {
  }

  /** The final re-check: its answer is only logged, unless `security` cannot be spawned. */
  function Recheck(r: Ran, answer: Option<Exit>): (s: Ran)
    ensures r.result.Err? ==> s == r
    ensures r.result.Ok? ==> s.log == r.log + [FindIdentity]
    ensures r.result.Ok? ==> (s.result.Ok? <==> answer.Some?)
    ensures r.result.Ok? && s.result.Err? ==> s.result.error == SpawnFailed(FindIdentity)
  {
    if r.result.Err? then r
    else match VerifyCertInKeychain(answer)
      case Err(e) => Ran(Err(e), r.log + [FindIdentity])
      case Ok(_) => Ran(Ok(()), r.log + [FindIdentity])
  }

  /** cleanup_old_certificates, as the result it returns and the commands it spawns. */
  function Cleanup(host: Host): (r: Ran)
    ensures r.log != [] && r.log[0] == FindIdentity
    ensures r.result.Err? ==> r.result.error.SpawnFailed?
    ensures (host.run(FindIdentity).Some? && !Occurs(host.run(FindIdentity).value.stdout, CaName))
            ==> r == Ran(Ok(()), [FindIdentity])
  {
    match VerifyCertInKeychain(host.run(FindIdentity))
    case Err(e) => Ran(Err(e), [FindIdentity])
    case Ok(present) =>
      if !present then Ran(Ok(()), [FindIdentity])
      else match host.run(ListKeychains)
        case None => Ran(Err(SpawnFailed(ListKeychains)), [FindIdentity, ListKeychains])
        case Some(listing) =>
          Prepend([FindIdentity, ListKeychains],
                  Recheck(CleanKeychains(ParseKeychains(listing.stdout), host.run), host.recheck))
  }

  lemma PrependAssoc(a: seq<Command>, b: seq<Command>, r: Ran)
    ensures Prepend(a, Prepend(b, r)) == Prepend(a + b, r)
  {
  }

  /** The deletion loop over the lines of one keychain's find-certificate output. */
  method DeleteHashes(lines: seq<string>, keychain: string, run: Command -> Option<Exit>)
    returns (r: Result<(), Error>, log: seq<Command>)
    ensures Ran(r, log) == DeleteListed(lines, keychain, run)
  {
    log := [];
    var j := 0;
    while j < |lines|
      invariant 0 <= j <= |lines|
      invariant DeleteListed(lines, keychain, run) == Prepend(log, DeleteListed(lines[j..], keychain, run))
    {
      assert lines[j..][1..] == lines[j + 1..];
      var line := lines[j];
      if Sha1Prefix <= line {
        var hash := HashToken(line);
        if hash != [] {
          var delete := DeleteCertificate(hash, keychain);
          PrependAssoc(log, [delete], DeleteListed(lines[j + 1..], keychain, run));
          log := log + [delete];
          if run(delete).None? {
            return Err(SpawnFailed(delete)), log;
          }
        }
      }
      j := j + 1;
    }
    r := Ok(());
    assert log + [] == log;
  }

  /** The loop over the listed keychains: find the CA's copies in each, then delete them. */
  method CleanEachKeychain(keychains: seq<string>, run: Command -> Option<Exit>)
    returns (r: Result<(), Error>, log: seq<Command>)
    ensures Ran(r, log) == CleanKeychains(keychains, run)
  {
    log := [];
    var i := 0;
    while i < |keychains|
      invariant 0 <= i <= |keychains|
      invariant CleanKeychains(keychains, run) == Prepend(log, CleanKeychains(keychains[i..], run))
    {
      assert keychains[i..][1..] == keychains[i + 1..];
      var keychain := keychains[i];
      var find := FindCertificate(keychain);
      var found := run(find);
      if found.None? {
        return Err(SpawnFailed(find)), log + [find];
      }
      var deleted, deletes := DeleteHashes(Lines(found.value.stdout), keychain, run);
      PrependAssoc(log, [find], AndThen(Ran(deleted, deletes), keychains[i + 1..], run));
      if deleted.Err? {
        return deleted, log + [find] + deletes;
      }
      PrependAssoc(log + [find], deletes, CleanKeychains(keychains[i + 1..], run));
      log := log + [find] + deletes;
      i := i + 1;
    }
    r := Ok(());
    assert log + [] == log;
  }

  /** cleanup_old_certificates, spawning the commands one by one. */
  method CleanupOldCertificates(host: Host) returns (r: Result<(), Error>, log: seq<Command>)
    ensures Ran(r, log) == Cleanup(host)
  {
    var present := VerifyCertInKeychain(host.run(FindIdentity));
    if present.Err? || !present.value {
      r, log := if present.Err? then Err(present.error) else Ok(()), [FindIdentity];
      assert Cleanup(host) == Ran(r, log);
      return;
    }
    var listing := host.run(ListKeychains);
    if listing.None? {
      r, log := Err(SpawnFailed(ListKeychains)), [FindIdentity, ListKeychains];
      assert Cleanup(host) == Ran(r, log);
      return;
    }
    var cleaned, commands := CleanEachKeychain(ParseKeychains(listing.value.stdout), host.run);
    ghost var checked := Recheck(Ran(cleaned, commands), host.recheck);
    CleanupWhenPresent(host);
    log := [FindIdentity, ListKeychains] + commands;
    if cleaned.Err? {
      assert checked == Ran(cleaned, commands);
      return cleaned, log;
    }
    log := log + [FindIdentity];
    var still := VerifyCertInKeychain(host.recheck);
    // A certificate that is still present only earns a warning.
    r := if still.Err? then Err(still.error) else Ok(());
    assert checked == Ran(r, commands + [FindIdentity]);
    assert log == [FindIdentity, ListKeychains] + (commands + [FindIdentity]);
  }

  // ---------------------------------------------------------------------------
  // What the cleanup pass deletes

  /** The delete-by-hash commands in a command log, in order. */
  function Deletions(log: seq<Command>): (d: seq<Command>)
    ensures |d| <= |log|
    ensures forall c :: c in d ==> c.DeleteCertificate? && c in log
  {
    if log == [] then []
    else (if log[0].DeleteCertificate? then [log[0]] else []) + Deletions(log[1..])
  }

  lemma {:induction false} DeletionsAppend(a: seq<Command>, b: seq<Command>)
    ensures Deletions(a + b) == Deletions(a) + Deletions(b)
    decreases |a|
  {
    if a != [] {
      assert (a + b)[1..] == a[1..] + b;
      DeletionsAppend(a[1..], b);
    } else {
      assert a + b == b;
    }
  }

  /** One delete command per hash, against `keychain`. */
  function DeletesFor(hashes: seq<string>, keychain: string): (d: seq<Command>)
    ensures |d| == |hashes|
    ensures forall i :: 0 <= i < |hashes| ==> d[i] == DeleteCertificate(hashes[i], keychain)
  {
    if hashes == [] then [] else [DeleteCertificate(hashes[0], keychain)] + DeletesFor(hashes[1..], keychain)
  }

  /** The deletions a cleanup pass intends: every hash each keychain lists, keychain by keychain. */
  function Planned(keychains: seq<string>, run: Command -> Option<Exit>): seq<Command> {
    if keychains == [] then []
    else
      (match run(FindCertificate(keychains[0]))
       case None => []
       case Some(out) => DeletesFor(Sha1Hashes(Lines(out.stdout)), keychains[0]))
      + Planned(keychains[1..], run)
  }

  /** Every command can be spawned. */
  ghost predicate AllSpawn(run: Command -> Option<Exit>) {
    forall c :: run(c).Some?
  }

  /** With every process spawned, the deletion loop deletes exactly the extracted hashes. */
  lemma {:induction false} DeleteListedDeletesHashes(lines: seq<string>, keychain: string, run: Command -> Option<Exit>)
    requires AllSpawn(run)
    ensures DeleteListed(lines, keychain, run) == Ran(Ok(()), DeletesFor(Sha1Hashes(lines), keychain))
    decreases |lines|
  {
    if lines != [] {
      DeleteListedDeletesHashes(lines[1..], keychain, run);
      if Sha1Prefix <= lines[0] {
        Sha1LineHasToken(lines[0]);
        var hashes := Sha1Hashes(lines);
        assert hashes[1..] == Sha1Hashes(lines[1..]);
        assert DeletesFor(hashes, keychain)[1..] == DeletesFor(hashes[1..], keychain);
      }
    }
  }

  /** With every process spawned, the keychain loop succeeds and deletes what was planned. */
  lemma {:induction false} CleanKeychainsDeletesPlanned(keychains: seq<string>, run: Command -> Option<Exit>)
    requires AllSpawn(run)
    ensures CleanKeychains(keychains, run).result == Ok(())
    ensures Deletions(CleanKeychains(keychains, run).log) == Planned(keychains, run)
    decreases |keychains|
  {
    if keychains != [] {
      var k := keychains[0];
      var find := FindCertificate(k);
      var out := run(find).value;
      var deletes := DeletesFor(Sha1Hashes(Lines(out.stdout)), k);
      DeleteListedDeletesHashes(Lines(out.stdout), k, run);
      CleanKeychainsDeletesPlanned(keychains[1..], run);
      var rest := CleanKeychains(keychains[1..], run);
      assert CleanKeychains(keychains, run).log == [find] + (deletes + rest.log);
      DeletionsAppend([find], deletes + rest.log);
      DeletionsAppend(deletes, rest.log);
      assert Deletions(deletes) == deletes by {
        DeletionsOfDeletes(deletes);
      }
    }
  }

  lemma {:induction false} DeletionsOfDeletes(d: seq<Command>)
    requires forall c :: c in d ==> c.DeleteCertificate?
    ensures Deletions(d) == d
  {
    if d != [] {
      assert d[0] in d;
      DeletionsOfDeletes(d[1..]);
    }
  }

  /** With the CA present and the keychains listed, the cleanup is the keychain pass, re-checked, after the two first commands. */
  lemma CleanupWhenPresent(host: Host)
    requires host.run(FindIdentity).Some? && Occurs(host.run(FindIdentity).value.stdout, CaName)
    requires host.run(ListKeychains).Some?
    ensures Cleanup(host) == Prepend([FindIdentity, ListKeychains],
              Recheck(CleanKeychains(ParseKeychains(host.run(ListKeychains).value.stdout), host.run), host.recheck))
  {
    assert VerifyCertInKeychain(host.run(FindIdentity)) == Ok(true);
  }

  /** A successful pass followed by a re-check that spawns succeeds, with find-identity logged last. */
  lemma RecheckAfterSuccess(c: Ran, answer: Option<Exit>)
    requires c.result.Ok? && answer.Some?
    ensures Recheck(c, answer) == Ran(Ok(()), c.log + [FindIdentity])
  {
  }

  /** With the CA present and the keychain pass successful, the cleanup's log is the pass framed by the two checks. */
  lemma CleanupLogWhenPresent(host: Host)
    requires host.run(FindIdentity).Some? && Occurs(host.run(FindIdentity).value.stdout, CaName)
    requires host.run(ListKeychains).Some? && host.recheck.Some?
    requires CleanKeychains(ParseKeychains(host.run(ListKeychains).value.stdout), host.run).result.Ok?
    ensures Cleanup(host).result == Ok(())
    ensures Cleanup(host).log
            == [FindIdentity, ListKeychains] + CleanKeychains(ParseKeychains(host.run(ListKeychains).value.stdout), host.run).log + [FindIdentity]
  {
    var c := CleanKeychains(ParseKeychains(host.run(ListKeychains).value.stdout), host.run);
    CleanupWhenPresent(host);
    RecheckAfterSuccess(c, host.recheck);
    assert [FindIdentity, ListKeychains] + (c.log + [FindIdentity]) == [FindIdentity, ListKeychains] + c.log + [FindIdentity];
  }

  /**
   * When the CA is present and every process can be spawned, the cleanup pass
   * succeeds and makes one delete attempt per extracted hash per listed keychain.
   */
  lemma CleanupDeletesEveryHash(host: Host)
    requires AllSpawn(host.run) && host.recheck.Some?
    requires Occurs(host.run(FindIdentity).value.stdout, CaName)
    ensures Cleanup(host).result == Ok(())
    ensures Deletions(Cleanup(host).log)
            == Planned(ParseKeychains(host.run(ListKeychains).value.stdout), host.run)
  {
    var keychains := ParseKeychains(host.run(ListKeychains).value.stdout);
    CleanKeychainsDeletesPlanned(keychains, host.run);
    var c := CleanKeychains(keychains, host.run);
    CleanupLogWhenPresent(host);
    DeletionsAppend([FindIdentity, ListKeychains] + c.log, [FindIdentity]);
    DeletionsAppend([FindIdentity, ListKeychains], c.log);
    assert Deletions([FindIdentity, ListKeychains]) == [];
  }

  /** The standard output of an answer, or None when nothing was spawned. */
  function Stdout(answer: Option<Exit>): Option<string> {
    match answer
    case None => None
    case Some(e) => Some(e.stdout)
  }

  /** Two machines whose commands print the same, whatever their exit statuses. */
  ghost predicate SameOutput(run1: Command -> Option<Exit>, run2: Command -> Option<Exit>) {
    forall c :: Stdout(run1(c)) == Stdout(run2(c))
  }

  lemma {:induction false} DeleteListedIgnoresStatus(lines: seq<string>, keychain: string, run1: Command -> Option<Exit>, run2: Command -> Option<Exit>)
    requires SameOutput(run1, run2)
    ensures DeleteListed(lines, keychain, run1) == DeleteListed(lines, keychain, run2)
    decreases |lines|
  {
    if lines != [] {
      DeleteListedIgnoresStatus(lines[1..], keychain, run1, run2);
      var delete := DeleteCertificate(HashToken(lines[0]), keychain);
      assert Stdout(run1(delete)) == Stdout(run2(delete));
    }
  }

  lemma {:induction false} CleanKeychainsIgnoresStatus(keychains: seq<string>, run1: Command -> Option<Exit>, run2: Command -> Option<Exit>)
    requires SameOutput(run1, run2)
    ensures CleanKeychains(keychains, run1) == CleanKeychains(keychains, run2)
    decreases |keychains|
  {
    if keychains != [] {
      var find := FindCertificate(keychains[0]);
      assert Stdout(run1(find)) == Stdout(run2(find));
      if run1(find).Some? {
        DeleteListedIgnoresStatus(Lines(run1(find).value.stdout), keychains[0], run1, run2);
        CleanKeychainsIgnoresStatus(keychains[1..], run1, run2);
      }
    }
  }

  /**
   * Exit statuses never change what the cleanup pass does or returns: not those
   * of the deletions, not that of any query, and neither does whether the
   * re-check still finds the CA. Only which processes could be spawned does.
   */
  lemma CleanupIgnoresExitStatus(host1: Host, host2: Host)
    requires SameOutput(host1.run, host2.run)
    requires host1.recheck.Some? == host2.recheck.Some?
    ensures Cleanup(host1) == Cleanup(host2)
  {
    assert Stdout(host1.run(FindIdentity)) == Stdout(host2.run(FindIdentity));
    assert Stdout(host1.run(ListKeychains)) == Stdout(host2.run(ListKeychains));
    if host1.run(ListKeychains).Some? {
      CleanKeychainsIgnoresStatus(ParseKeychains(host1.run(ListKeychains).value.stdout), host1.run, host2.run);
    }
  }
}
