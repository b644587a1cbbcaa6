/**
 * The per-line extractor of `parse_file_info`:
 * `re.search(r"\"((GET|POST|DELETE|PUT) (.+) HTTP/(1.0|1.1))(.+)(\d+\.\d{3})$", line)`,
 * written out by hand. Group 3 is the URL, group 6 the request time, read
 * here as whole milliseconds.
 *
 * How the pattern resolves, which the functions below follow:
 * - `re.search` tries start positions from the left; the first one with any
 *   match wins.
 * - The methods are not prefixes of one another, so at most one applies.
 * - `(.+)` for the URL is greedy: the LAST ` HTTP/1?0` or ` HTTP/1?1` marker
 *   (the `.` in `1.0` takes any character but a newline) that lets the rest
 *   match ends it.
 * - `$` holds at the end of the line or just before a final newline. The
 *   token before it ends in a digit, so it sits before the final newline
 *   when there is one, at the end otherwise.
 * - The `(.+)` before the time is greedy too, so `\d+` gets one digit: the
 *   time is always the five characters `d.ddd` just before `$`.
 * - No `.` matches a newline.
 */
module LineExtractor {
  import opened Outcomes
  import opened Text

  /** Length of the method (`GET|POST|DELETE|PUT`) starting at `i`, 0 when none does. */
  function MethodLength(line: string, i: nat): (k: nat)
    ensures k > 0 ==> i + k <= |line| && line[i..i + k] in {"GET", "POST", "DELETE", "PUT"}
    ensures k == 0 <==> !OccursAt(line, i, "GET") && !OccursAt(line, i, "POST")
                        && !OccursAt(line, i, "DELETE") && !OccursAt(line, i, "PUT")
  {
    if OccursAt(line, i, "GET") then 3
    else if OccursAt(line, i, "POST") then 4
    else if OccursAt(line, i, "DELETE") then 6
    else if OccursAt(line, i, "PUT") then 3
    else 0
  }

  /** The position where the final `$` of the pattern can hold for a token ending in a digit. */
  function DollarEnd(line: string): (e: nat)
    ensures e <= |line|
    ensures e < |line| <==> |line| > 0 && line[|line| - 1] == '\n'
  {
    if |line| > 0 && line[|line| - 1] == '\n' then |line| - 1 else |line|
  }

  /** `\d\.\d{3}` ends at `e`. */
  predicate TimeTokenAt(line: string, e: nat) {
    5 <= e <= |line| && IsDigit(line[e - 5]) && line[e - 4] == '.'
    && IsDigit(line[e - 3]) && IsDigit(line[e - 2]) && IsDigit(line[e - 1])
  }

  /** `float(token)` in milliseconds: `d.ddd` seconds is `dddd` milliseconds. */
  function TokenMillis(line: string, e: nat): (ms: nat)
    requires TimeTokenAt(line, e)
    ensures ms < 10000
  {
    DigitValue(line[e - 5]) * 1000 + DigitValue(line[e - 3]) * 100
    + DigitValue(line[e - 2]) * 10 + DigitValue(line[e - 1])
  }

  /** Where group 3 starts for a match that starts at `p`. */
  function UrlStart(line: string, p: nat): nat {
    p + 2 + MethodLength(line, p + 1)
  }

  /**
   * The pattern matches with its first character at `p` and group 3 ending
   * at `r`: a quote, a method, a space, a non-empty newline-free URL, the
   * marker ` HTTP/1?0` or ` HTTP/1?1`, a non-empty newline-free filler and the
   * time token before `$`.
   */
  predicate Candidate(line: string, p: nat, r: nat) {
    && p < |line|
    && line[p] == '"'
    && MethodLength(line, p + 1) > 0
    && OccursAt(line, p + 1 + MethodLength(line, p + 1), " ")
    && UrlStart(line, p) < r
    && r + 8 < |line|
    && NoNewline(line[UrlStart(line, p)..r])
    && OccursAt(line, r, " HTTP/1")
    && line[r + 7] != '\n'
    && (line[r + 8] == '0' || line[r + 8] == '1')
    && r + 9 < DollarEnd(line) - 5
    && NoNewline(line[r + 9..DollarEnd(line) - 5])
    && TimeTokenAt(line, DollarEnd(line))
  }

  /** Group 3 and group 6 (in milliseconds) of the match `Candidate(line, p, r)`. */
  function Groups(line: string, p: nat, r: nat): (g: (string, nat))
    requires Candidate(line, p, r)
    ensures |g.0| > 0 && NoNewline(g.0) && g.1 < 10000
  {
    (line[UrlStart(line, p)..r], TokenMillis(line, DollarEnd(line)))
  }

  /** The match `re.search` reports: the leftmost start, and for it the greediest URL. */
  ghost predicate LeftmostGreedy(line: string, p: nat, r: nat) {
    && Candidate(line, p, r)
    && (forall p': nat, r': nat :: p' < p ==> !Candidate(line, p', r'))
    && (forall r': nat :: r < r' ==> !Candidate(line, p, r'))
  }

  /** Backtracking of the URL's `(.+)`: the longest URL ending at or before `r`. */
  function LongestUrlEnd(line: string, p: nat, r: nat): (res: Option<nat>)
    ensures res.Some? ==> res.value <= r && Candidate(line, p, res.value)
    ensures res.Some? ==> forall r': nat :: res.value < r' <= r ==> !Candidate(line, p, r')
    ensures res.None? ==> forall r': nat :: r' <= r ==> !Candidate(line, p, r')
    decreases r
  {
    if Candidate(line, p, r) then Some(r)
    else if r == 0 then None
    else LongestUrlEnd(line, p, r - 1)
  }

  /** The scan of `re.search` over start positions `p`, `p + 1`, ...: the match's start and URL end. */
  function FirstMatch(line: string, p: nat): (res: Option<(nat, nat)>)
    ensures res.None? ==> forall p': nat, r: nat :: p <= p' ==> !Candidate(line, p', r)
    ensures res.Some? ==> p <= res.value.0 && Candidate(line, res.value.0, res.value.1)
    ensures res.Some? ==> forall p': nat, r: nat :: p <= p' < res.value.0 ==> !Candidate(line, p', r)
    ensures res.Some? ==> forall r: nat :: res.value.1 < r ==> !Candidate(line, res.value.0, r)
    decreases |line| - p
  {
    if p >= |line| then None
    else match LongestUrlEnd(line, p, |line|)
      case Some(r) => Some((p, r))
      case None => FirstMatch(line, p + 1)
  }

  /**
   * `exp.group(3)` and `float(exp.group(6))` (as milliseconds), or None where
   * `re.search` returns None and the source's `exp.group` raises
   * `AttributeError`.
   */
  function Extract(line: string): (res: Option<(string, nat)>)
    ensures res.Some? <==> exists p: nat, r: nat :: Candidate(line, p, r)
    ensures res.Some? ==> exists p: nat, r: nat :: LeftmostGreedy(line, p, r) && res.value == Groups(line, p, r)
    ensures res.Some? ==> TimeTokenAt(line, DollarEnd(line)) && res.value.1 == TokenMillis(line, DollarEnd(line))
    ensures res.Some? ==> |res.value.0| > 0 && NoNewline(res.value.0)
  {
    match FirstMatch(line, 0)
    case Some((p, r)) => Some(Groups(line, p, r))
    case None => None
  }

  /** A line ending in `\r\n` never matches: the token would have to end in `\r`. */
  lemma CrLfNeverMatches(line: string)
    requires |line| >= 2 && line[|line| - 2..] == "\r\n"
    ensures Extract(line) == None
  {
    assert line[|line| - 1] == '\n' && line[|line| - 2] == '\r';
    assert DollarEnd(line) == |line| - 1;
    forall p: nat, r: nat ensures !Candidate(line, p, r) {
      assert !TimeTokenAt(line, DollarEnd(line));
    }
  }

  /** Without a quote followed by one of the four methods the line counts as an error. */
  lemma UnknownMethodNeverMatches(line: string)
    requires forall p :: 0 <= p < |line| && line[p] == '"' ==> MethodLength(line, p + 1) == 0
    ensures Extract(line) == None
  {
    forall p: nat, r: nat ensures !Candidate(line, p, r) {
    }
  }

  /** A minimal request line (quote, method, URL, protocol, status, time), built from its parts. */
  const SAMPLE_URL := "/api/v2/banner/1"
  const SAMPLE_LINE := "\"GET " + SAMPLE_URL + " HTTP/1.1\" 200 " + "0.390\n"

  /** The sample line, cut where its parts meet. */
  lemma SampleLineParts(line: string)
    requires line == SAMPLE_LINE
    ensures |line| == 42
    ensures line[..5] == "\"GET " && line[5..21] == SAMPLE_URL
    ensures line[21..36] == " HTTP/1.1\" 200 " && line[36..] == "0.390\n"
  {
    var head, mid, tail := "\"GET ", " HTTP/1.1\" 200 ", "0.390\n";
    assert |head| == 5 && |SAMPLE_URL| == 16 && |mid| == 15 && |tail| == 6;
    assert line == head + SAMPLE_URL + mid + tail;
  }

  lemma SampleLineMethod(line: string)
    requires line == SAMPLE_LINE
    ensures MethodLength(line, 1) == 3 && UrlStart(line, 0) == 5 && OccursAt(line, 4, " ")
    ensures line[0] == '"'
  {
    SampleLineParts(line);
    var head := line[..5];
    assert head[0] == '"' && head[1] == 'G' && head[2] == 'E' && head[3] == 'T' && head[4] == ' ';
    assert line[1..4] == head[1..4] == "GET";
    assert line[4..5] == head[4..5] == " ";
  }

  lemma SampleLineMarker(line: string)
    requires line == SAMPLE_LINE
    ensures OccursAt(line, 21, " HTTP/1") && line[28] != '\n' && line[29] == '1'
    ensures NoNewline(line[30..36])
  {
    SampleLineParts(line);
    var mid := line[21..36];
    assert mid[..7] == " HTTP/1" && mid[7] == '.' && mid[8] == '1';
    assert line[21..28] == mid[..7];
    assert forall k :: 9 <= k < 15 ==> mid[k] != '\n';
    assert line[30..36] == mid[9..];
  }

  lemma SampleLineToken(line: string)
    requires line == SAMPLE_LINE
    ensures |line| == 42 && DollarEnd(line) == 41
    ensures TimeTokenAt(line, 41) && TokenMillis(line, 41) == 390
  {
    SampleLineParts(line);
    var tail := line[36..];
    assert tail[0] == '0' && tail[1] == '.' && tail[2] == '3' && tail[3] == '9' && tail[4] == '0' && tail[5] == '\n';
  }

  lemma SampleLineUrl(line: string)
    requires line == SAMPLE_LINE
    ensures line[5..21] == "/api/v2/banner/1" && NoNewline(line[5..21])
  {
    SampleLineParts(line);
    assert forall k :: 0 <= k < 16 ==> SAMPLE_URL[k] != '\n';
  }

  lemma SampleLineCandidate(line: string)
    requires line == SAMPLE_LINE
    ensures Candidate(line, 0, 21)
  {
    SampleLineMethod(line);
    SampleLineMarker(line);
    SampleLineToken(line);
    SampleLineUrl(line);
  }

  /** No later ` HTTP/1` marker: the greedy URL ends at 21. */
  lemma SampleLineGreedy(line: string, r: nat)
    requires line == SAMPLE_LINE && 21 < r
    ensures !Candidate(line, 0, r)
  {
    if r + 8 < |line| {
      SampleLineParts(line);
      var mid := line[21..36];
      assert forall k :: 1 <= k < 14 ==> mid[k] != ' ' || mid[k + 1] != 'H';
      assert line[r] == mid[r - 21] && line[r + 1] == mid[r - 20];
      var w := line[r..r + 7];
      assert w[0] == line[r] && w[1] == line[r + 1];
      assert w != " HTTP/1";
      assert !OccursAt(line, r, " HTTP/1");
    }
  }

  /** The leftmost-greedy match is unique, so it is exactly what `Extract` reports. */
  lemma ExtractIsLeftmostGreedy(line: string, p: nat, r: nat)
    requires LeftmostGreedy(line, p, r)
    ensures Extract(line) == Some(Groups(line, p, r))
  {
    var m := FirstMatch(line, 0);
    assert m.Some?;
    var p0, r0 := m.value.0, m.value.1;
    assert Candidate(line, p0, r0);
    assert p0 == p;
    assert r0 == r;
  }

  lemma SampleLineLeftmostGreedy(line: string)
    requires line == SAMPLE_LINE
    ensures LeftmostGreedy(line, 0, 21)
  {
    SampleLineCandidate(line);
    forall r: nat | 21 < r ensures !Candidate(line, 0, r) {
      SampleLineGreedy(line, r);
    }
  }

  /** The sample line yields its URL and 390 milliseconds. */
  lemma SampleLineExtract(line: string)
    requires line == SAMPLE_LINE
    ensures Extract(line) == Some(("/api/v2/banner/1", 390))
  {
    SampleLineLeftmostGreedy(line);
    ExtractIsLeftmostGreedy(line, 0, 21);
    SampleLineMethod(line);
    SampleLineToken(line);
    SampleLineUrl(line);
    assert Groups(line, 0, 21) == (line[5..21], TokenMillis(line, 41));
  }
}
