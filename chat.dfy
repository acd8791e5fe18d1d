/**
 * The chat transcript of a Zoom recording (app.js:766-772): the text is split
 * into lines, empty lines are dropped, and each line is split on tabs into the
 * time, the sender's name and the message, whose remaining tab-separated
 * pieces are joined back with single spaces.
 */
module ZoomChat {
  import opened Wrappers
  import opened Text

  /** One chat record; `name` is `None` where the line has no tab (the destructured value is undefined). */
  datatype ChatLine = ChatLine(time: string, name: Option<string>, message: string)

  /** `const [time, name, ...messageParts] = line.split("\t")` and `messageParts.join(" ")`. */
  function ParseLine(line: string): (c: ChatLine)
    ensures '\t' !in c.time && (c.name.Some? ==> '\t' !in c.name.value)
  {
    var parts := Split(line, '\t');
    ChatLine(parts[0],
             if |parts| >= 2 then Some(parts[1]) else None,
             if |parts| >= 2 then Join(parts[2..], " ") else [])
  }

  /** `.filter(Boolean)` on the lines: the empty string is the only false string. */
  function NonEmpty(lines: seq<string>): (r: seq<string>)
    ensures forall l :: l in r <==> l in lines && l != []
    ensures |r| <= |lines|
  {
    if lines == [] then []
    else (if lines[0] != [] then [lines[0]] else []) + NonEmpty(lines[1..])
  }

  function ParseLines(lines: seq<string>): (r: seq<ChatLine>)
    ensures |r| == |lines| && forall k :: 0 <= k < |lines| ==> r[k] == ParseLine(lines[k])
  {
    if lines == [] then [] else [ParseLine(lines[0])] + ParseLines(lines[1..])
  }

  /** The records stored as the meeting's chat: one for each non-empty line of `text`. */
  function ParseChat(text: string): (r: seq<ChatLine>)
    ensures |r| == |NonEmpty(Split(text, '\n'))|
    ensures forall k :: 0 <= k < |r| ==> r[k] == ParseLine(NonEmpty(Split(text, '\n'))[k])
  {
    ParseLines(NonEmpty(Split(text, '\n')))
  }

  // ---------------------------------------------------------------------------
  // The line format Zoom writes, and the round trip

  /** No tab and no line break. */
  predicate Plain(s: string)
  {
    '\t' !in s && '\n' !in s
  }

  /** A record Zoom can write: a name, and no separator inside any field. */
  predicate Writable(c: ChatLine)
  {
    c.name.Some? && Plain(c.time) && Plain(c.name.value) && Plain(c.message)
  }

  /** The transcript line of a record: time, name and message separated by tabs. */
  function FormatLine(c: ChatLine): string
    requires c.name.Some?
  {
    c.time + "\t" + c.name.value + "\t" + c.message
  }

  function FormatLines(cs: seq<ChatLine>): (r: seq<string>)
    requires forall k :: 0 <= k < |cs| ==> cs[k].name.Some?
    ensures |r| == |cs| && forall k :: 0 <= k < |cs| ==> r[k] == FormatLine(cs[k])
  {
    if cs == [] then [] else [FormatLine(cs[0])] + FormatLines(cs[1..])
  }

  /** A transcript: the lines of the records, separated by line breaks. */
  function FormatChat(cs: seq<ChatLine>): string
    requires forall k :: 0 <= k < |cs| ==> cs[k].name.Some?
  {
    Join(FormatLines(cs), "\n")
  }

  /** The pieces of a line made of a time, a name and a message that may itself hold tabs. */
  lemma SplitLine(time: string, name: string, message: string)
    requires '\t' !in time && '\t' !in name
    ensures Split(time + "\t" + name + "\t" + message, '\t') == [time, name] + Split(message, '\t')
  {
    var rest := name + "\t" + message;
    assert time + "\t" + name + "\t" + message == time + ['\t'] + rest;
    SplitAfterPiece(time, '\t', rest);
    assert rest == name + ['\t'] + message;
    SplitAfterPiece(name, '\t', message);
  }

  /** Tabs inside a message come back as spaces: the rest of the line is joined with " ". */
  lemma TabsInMessageBecomeSpaces(time: string, name: string, message: string)
    requires '\t' !in time && '\t' !in name
    ensures ParseLine(time + "\t" + name + "\t" + message) == ChatLine(time, Some(name), ReplaceAll(message, '\t', " "))
  {
    SplitLine(time, name, message);
    var parts := [time, name] + Split(message, '\t');
    assert parts[2..] == Split(message, '\t');
    JoinSplit(message, '\t', " ");
  }

  /** A line without a tab is all time: no name, and an empty message. */
  lemma LineWithoutTab(line: string)
    requires '\t' !in line
    ensures ParseLine(line) == ChatLine(line, None, [])
  {
    SplitWithoutSeparator(line, '\t');
  }

  /** Parsing the line of a writable record gives the record back. */
  lemma ParseFormatLine(c: ChatLine)
    requires Writable(c)
    ensures ParseLine(FormatLine(c)) == c
  {
    TabsInMessageBecomeSpaces(c.time, c.name.value, c.message);
    ReplaceNothing(c.message, '\t', " ");
  }

  lemma {:induction false} ReplaceNothing(s: string, c: char, repl: string)
    requires c !in s
    ensures ReplaceAll(s, c, repl) == s
  {
    if s != [] {
      ReplaceNothing(s[1..], c, repl);
      assert s == [s[0]] + s[1..];
    }
  }

  /** `filter(Boolean)` keeps the order of the lines: filtering a concatenation filters each part. */
  lemma {:induction false} NonEmptyAppend(a: seq<string>, b: seq<string>)
    ensures NonEmpty(a + b) == NonEmpty(a) + NonEmpty(b)
  {
    if a == [] {
      assert a + b == b;
    } else {
      var head := if a[0] != [] then [a[0]] else [];
      assert (a + b)[0] == a[0] && (a + b)[1..] == a[1..] + b;
      assert NonEmpty(a + b) == head + NonEmpty(a[1..] + b);
      NonEmptyAppend(a[1..], b);
      assert NonEmpty(a) == head + NonEmpty(a[1..]);
      assert head + (NonEmpty(a[1..]) + NonEmpty(b)) == (head + NonEmpty(a[1..])) + NonEmpty(b);
    }
  }

  lemma {:induction false} NonEmptyKeepsAll(lines: seq<string>)
    requires forall k :: 0 <= k < |lines| ==> lines[k] != []
    ensures NonEmpty(lines) == lines
  {
    if lines != [] {
      NonEmptyKeepsAll(lines[1..]);
      assert [lines[0]] + lines[1..] == lines;
    }
  }

  /** Parsing a transcript of writable records gives back exactly those records, one per line. */
  lemma ParseFormatChat(cs: seq<ChatLine>)
    requires forall k :: 0 <= k < |cs| ==> cs[k].name.Some? && Writable(cs[k])
    ensures ParseChat(FormatChat(cs)) == cs
  {
    var lines := FormatLines(cs);
    if cs == [] {
      assert FormatChat(cs) == [];
      assert Split([], '\n') == [[]];
      assert NonEmpty([[]]) == [];
    } else {
      forall k | 0 <= k < |lines| ensures '\n' !in lines[k] && lines[k] != [] {
        assert lines[k] == cs[k].time + "\t" + cs[k].name.value + "\t" + cs[k].message;
        assert lines[k][|cs[k].time|] == '\t';
      }
      JoinThenSplit(lines, '\n');
      NonEmptyKeepsAll(lines);
      forall k | 0 <= k < |cs| ensures ParseLine(lines[k]) == cs[k] {
        ParseFormatLine(cs[k]);
      }
    }
  }
}
