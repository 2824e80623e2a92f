/**
  Kitty graphics: writing an image as escape-coded commands of at most 4096 payload units,
  and finding it again in a rendered line to replace it by a placement-only command.
*/
module KittyImages {
  import opened Decimals
  import opened Sequences
  import opened Wrappers

  const ESC := '\U{1B}'
  const KITTY_PREFIX: string := [ESC, '_', 'G']
  const TERMINATOR: string := [ESC, '\\']
  const CHUNK_SIZE: nat := 4096
  const REGISTRY_LIMIT: nat := 1000

  // ----- Writing -----

  datatype Options = Options(columns: nat, rows: nat, imageId: nat, moveCursor: bool)   // 0 stands for absent

  /** A control of a command: a one-letter key and a value. */
  datatype Control = Control(key: char, value: string)
  {
    function Text(): string { [key] + "=" + value }
  }

  function Texts(controls: seq<Control>): (texts: seq<string>)
    ensures |texts| == |controls| && forall k :: 0 <= k < |controls| ==> texts[k] == controls[k].Text()
  {
    if controls == [] then [] else [controls[0].Text()] + Texts(controls[1..])
  }

  function Number(key: char, n: nat): seq<Control> {
    if n == 0 then [] else [Control(key, Decimal(n))]
  }

  /** The controls that say where and how large the image is shown. */
  function Placing(options: Options): seq<Control> {
    (if options.moveCursor then [] else [Control('C', "1")])
    + Number('c', options.columns) + Number('r', options.rows) + Number('i', options.imageId)
  }

  const TRANSMIT: seq<Control> := [Control('a', "T"), Control('f', "100"), Control('q', "2")]
  const MORE := Control('m', "1")
  const LAST := Control('m', "0")

  function Params(options: Options): seq<Control> { TRANSMIT + Placing(options) }

  function Command(controls: seq<Control>, payload: string): string {
    KITTY_PREFIX + JoinWith(Texts(controls), ",") + ";" + payload + TERMINATOR
  }

  /** The payload cut into pieces of CHUNK_SIZE; only the last may be shorter. */
  function Chunks(payload: string): seq<string>
    decreases |payload|
  {
    if |payload| <= CHUNK_SIZE then [payload] else [payload[..CHUNK_SIZE]] + Chunks(payload[CHUNK_SIZE..])
  }

  /** The commands after the first: m=1 announces more, m=0 ends. */
  function MoreCommands(chunks: seq<string>): string {
    if chunks == [] then ""
    else if |chunks| == 1 then Command([LAST], chunks[0])
    else Command([MORE], chunks[0]) + MoreCommands(chunks[1..])
  }

  function Encoding(payload: string, params: seq<Control>): string {
    var chunks := Chunks(payload);
    if |chunks| == 1 then Command(params, chunks[0]) else Command(params + [MORE], chunks[0]) + MoreCommands(chunks[1..])
  }

  /** No chunk is longer than CHUNK_SIZE, none is empty unless the payload is, and together they are the payload. */
  lemma {:induction false} ChunksCarryPayload(payload: string)
    ensures Flatten(Chunks(payload)) == payload
    ensures forall k :: 0 <= k < |Chunks(payload)| ==> |Chunks(payload)[k]| <= CHUNK_SIZE
    ensures forall k :: 0 <= k < |Chunks(payload)| - 1 ==> |Chunks(payload)[k]| == CHUNK_SIZE
    ensures payload != "" ==> forall k :: 0 <= k < |Chunks(payload)| ==> Chunks(payload)[k] != ""
    ensures |Chunks(payload)| == if |payload| <= CHUNK_SIZE then 1 else (|payload| + CHUNK_SIZE - 1) / CHUNK_SIZE
    decreases |payload|
  {
    if |payload| > CHUNK_SIZE {
      var first, rest := payload[..CHUNK_SIZE], Chunks(payload[CHUNK_SIZE..]);
      ChunksCarryPayload(payload[CHUNK_SIZE..]);
      assert ([first] + rest)[1..] == rest;
      assert first + "" == first && first + payload[CHUNK_SIZE..] == payload;
    }
  }

  lemma ChunksOfRest(payload: string, offset: nat)
    requires offset + CHUNK_SIZE < |payload|
    ensures Chunks(payload[offset..]) == [payload[offset..offset + CHUNK_SIZE]] + Chunks(payload[offset + CHUNK_SIZE..])
  {
    assert payload[offset..][..CHUNK_SIZE] == payload[offset..offset + CHUNK_SIZE];
    assert payload[offset..][CHUNK_SIZE..] == payload[offset + CHUNK_SIZE..];
  }

  method EncodeKitty(base64Data: string, options: Options) returns (encoded: string)
    ensures encoded == Encoding(base64Data, Params(options))
  {
    var params := Params(options);
    if |base64Data| <= CHUNK_SIZE {
      return Command(params, base64Data);
    }
    var offset := 0;
    encoded := "";
    assert base64Data[0..] == base64Data;
    while offset < |base64Data|
      invariant offset == 0 ==> encoded == ""
      invariant 0 < offset < |base64Data| ==>
                  encoded + MoreCommands(Chunks(base64Data[offset..])) == Encoding(base64Data, params)
      invariant offset >= |base64Data| ==> encoded == Encoding(base64Data, params)
      decreases |base64Data| - offset
    {
      var isLast := offset + CHUNK_SIZE >= |base64Data|;
      var chunk := base64Data[offset..if isLast then |base64Data| else offset + CHUNK_SIZE];
      if !isLast {
        ChunksOfRest(base64Data, offset);
      }
      if offset == 0 {
        encoded := Command(params + [MORE], chunk);
      } else {
        StepEncoding(encoded, base64Data, offset, params);
        encoded := encoded + Command([if isLast then LAST else MORE], chunk);
      }
      offset := offset + CHUNK_SIZE;
    }
  }

  lemma StepEncoding(encoded: string, data: string, offset: nat, params: seq<Control>)
    requires 0 < offset < |data|
    requires encoded + MoreCommands(Chunks(data[offset..])) == Encoding(data, params)
    ensures offset + CHUNK_SIZE >= |data| ==> encoded + Command([LAST], data[offset..]) == Encoding(data, params)
    ensures offset + CHUNK_SIZE < |data| ==>
              (encoded + Command([MORE], data[offset..offset + CHUNK_SIZE])) + MoreCommands(Chunks(data[offset + CHUNK_SIZE..]))
              == Encoding(data, params)
  {
    if offset + CHUNK_SIZE < |data| {
      ChunksOfRest(data, offset);
      var first, rest := data[offset..offset + CHUNK_SIZE], Chunks(data[offset + CHUNK_SIZE..]);
      assert ([first] + rest)[1..] == rest;
      assert (encoded + Command([MORE], first)) + MoreCommands(rest) == encoded + (Command([MORE], first) + MoreCommands(rest));
    }
  }

  // ----- The registry -----

  datatype Metadata = Metadata(imageId: nat, columns: nat, rows: nat, widthPx: nat, heightPx: nat)
  datatype Registered = Registered(metadata: Metadata, generation: nat)

  function Without(ids: seq<nat>, id: nat): (rest: seq<nat>)
    ensures |rest| <= |ids|
    ensures forall x :: x in rest <==> x in ids && x != id
  {
    if ids == [] then [] else (if ids[0] == id then [] else [ids[0]]) + Without(ids[1..], id)
  }

  /** The ids in the order of their latest registrations. */
  function Recent(history: seq<Metadata>): seq<nat> {
    if history == [] then []
    else Without(Recent(history[..|history| - 1]), history[|history| - 1].imageId) + [history[|history| - 1].imageId]
  }

  function Newest(ids: seq<nat>): seq<nat> {
    if |ids| > REGISTRY_LIMIT then ids[|ids| - REGISTRY_LIMIT..] else ids
  }

  /** The last registration of an id, with the count of registrations up to it. */
  function LatestOf(history: seq<Metadata>, id: nat): Option<Registered> {
    if history == [] then None
    else if history[|history| - 1].imageId == id then Some(Registered(history[|history| - 1], |history|))
    else LatestOf(history[..|history| - 1], id)
  }

  ghost predicate Distinct(ids: seq<nat>) {
    forall i, j :: 0 <= i < j < |ids| ==> ids[i] != ids[j]
  }

  lemma {:induction false} WithoutDistinct(ids: seq<nat>, id: nat)
    requires Distinct(ids)
    ensures Distinct(Without(ids, id))
  {
    if ids != [] {
      WithoutDistinct(ids[1..], id);
      var rest := Without(ids[1..], id);
      forall k | 0 <= k < |rest| ensures rest[k] != ids[0] {
        assert rest[k] in ids[1..];
      }
    }
  }

  lemma MovedToEnd(ids: seq<nat>, id: nat)
    requires Distinct(ids)
    ensures Distinct(Without(ids, id) + [id])
    ensures forall x :: x in Without(ids, id) + [id] <==> x in ids || x == id
  {
    WithoutDistinct(ids, id);
    var rest := Without(ids, id);
    assert forall k :: 0 <= k < |rest| ==> rest[k] in rest;
  }

  lemma {:induction false} WithoutAbsent(ids: seq<nat>, id: nat)
    requires id !in ids
    ensures Without(ids, id) == ids
  {
    if ids != [] {
      WithoutAbsent(ids[1..], id);
      assert ids == [ids[0]] + ids[1..];
    }
  }

  lemma {:induction false} WithoutPresent(ids: seq<nat>, id: nat)
    requires Distinct(ids) && id in ids
    ensures |Without(ids, id)| == |ids| - 1
  {
    if ids[0] == id {
      assert id !in ids[1..];
      WithoutAbsent(ids[1..], id);
    } else {
      assert ids == [ids[0]] + ids[1..];
      WithoutPresent(ids[1..], id);
    }
  }

  lemma {:induction false} WithoutAppend(a: seq<nat>, b: seq<nat>, id: nat)
    ensures Without(a + b, id) == Without(a, id) + Without(b, id)
  {
    if a == [] {
      assert a + b == b;
    } else {
      assert (a + b)[1..] == a[1..] + b;
      WithoutAppend(a[1..], b, id);
    }
  }

  lemma {:induction false} RecentIsDistinct(history: seq<Metadata>)
    ensures Distinct(Recent(history))
  {
    if history != [] {
      RecentIsDistinct(history[..|history| - 1]);
      MovedToEnd(Recent(history[..|history| - 1]), history[|history| - 1].imageId);
    }
  }

  lemma NewestIsDistinct(ids: seq<nat>)
    requires Distinct(ids)
    ensures Distinct(Newest(ids)) && |Newest(ids)| <= REGISTRY_LIMIT
  {
  }

  /** Keeping the newest ids commutes with registering one more. */
  lemma NewestStep(recent: seq<nat>, id: nat)
    requires Distinct(recent)
    ensures Newest(Without(recent, id) + [id]) == Newest(Without(Newest(recent), id) + [id])
  {
    if |recent| > REGISTRY_LIMIT {
      var cut := |recent| - REGISTRY_LIMIT;
      var oldest, newest := recent[..cut], recent[cut..];
      assert recent == oldest + newest;
      WithoutAppend(oldest, newest, id);
      var moved := Without(newest, id) + [id];
      assert Without(recent, id) + [id] == Without(oldest, id) + moved;
      MovedLength(newest, id);
      DropFront(Without(oldest, id), moved);
    }
  }

  lemma MovedLength(ids: seq<nat>, id: nat)
    requires Distinct(ids)
    ensures |Without(ids, id) + [id]| >= |ids|
  {
    if id in ids {
      WithoutPresent(ids, id);
    } else {
      WithoutAbsent(ids, id);
    }
  }

  lemma DropFront(front: seq<nat>, ids: seq<nat>)
    requires |ids| >= REGISTRY_LIMIT
    ensures Newest(front + ids) == Newest(ids)
  {
    if |front + ids| > REGISTRY_LIMIT {
      assert (front + ids)[|front + ids| - REGISTRY_LIMIT..] == ids[|ids| - REGISTRY_LIMIT..];
    } else {
      assert front + ids == ids;
    }
  }

  /** Moving the id to the end, and dropping the first when there are too many, keeps the newest ids. */
  lemma RegisterStep(history: seq<Metadata>, metadata: Metadata)
    ensures var ids := Newest(Recent(history));
            var moved := Without(ids, metadata.imageId) + [metadata.imageId];
            && Distinct(ids) && Distinct(moved)
            && Newest(Recent(history + [metadata])) == if |moved| > REGISTRY_LIMIT then moved[1..] else moved
  {
    var recent, id := Recent(history), metadata.imageId;
    assert Recent(history + [metadata]) == Without(recent, id) + [id] by {
      assert (history + [metadata])[..|history|] == history;
    }
    RecentIsDistinct(history);
    NewestIsDistinct(recent);
    NewestStep(recent, id);
    MovedToEnd(Newest(recent), id);
    NewestOfOneMore(Without(Newest(recent), id) + [id]);
  }

  lemma NewestOfOneMore(ids: seq<nat>)
    requires |ids| <= REGISTRY_LIMIT + 1
    ensures Newest(ids) == if |ids| > REGISTRY_LIMIT then ids[1..] else ids
  {
  }

  /** The entries are those of the ids, each with its latest registration. */
  ghost predicate Holds(ids: seq<nat>, entries: map<nat, Registered>, history: seq<Metadata>) {
    && (forall id :: id in entries <==> id in ids)
    && (forall id :: id in entries ==> Some(entries[id]) == LatestOf(history, id))
  }

  lemma PutHolds(ids: seq<nat>, entries: map<nat, Registered>, history: seq<Metadata>, metadata: Metadata)
    requires Distinct(ids) && Holds(ids, entries, history)
    ensures var id := metadata.imageId;
            Holds(Without(ids, id) + [id], entries[id := Registered(metadata, |history| + 1)], history + [metadata])
  {
    MovedToEnd(ids, metadata.imageId);
    assert (history + [metadata])[..|history|] == history;
  }

  lemma EvictHolds(ids: seq<nat>, entries: map<nat, Registered>, history: seq<Metadata>)
    requires ids != [] && Distinct(ids) && Holds(ids, entries, history)
    ensures Holds(ids[1..], entries - {ids[0]}, history)
  {
    assert ids == [ids[0]] + ids[1..];
    assert forall k :: 0 <= k < |ids[1..]| ==> ids[1..][k] != ids[0];
  }

  /** The module state of the source: a map that remembers insertion order, and a counter. */
  class Registry {
    var ids: seq<nat>               // the keys in insertion order
    var entries: map<nat, Registered>
    var generation: nat
    ghost var history: seq<Metadata>

    /** Exactly the most recently registered ids are there. */
    ghost predicate Valid()
      reads this
    {
      generation == |history| && ids == Newest(Recent(history)) && Holds(ids, entries, history)
    }

    constructor ()
      ensures Valid() && history == []
    {
      ids, entries, generation, history := [], map[], 0, [];
    }

    method Register(metadata: Metadata)
      requires Valid()
      modifies this
      ensures Valid() && history == old(history) + [metadata] && generation == old(generation) + 1
    {
      var id := metadata.imageId;
      RegisterStep(history, metadata);
      PutHolds(ids, entries, history, metadata);
      generation := generation + 1;
      history := history + [metadata];
      entries := entries[id := Registered(metadata, generation)];
      ids := Without(ids, id) + [id];
      if |ids| > REGISTRY_LIMIT {
        EvictHolds(ids, entries, history);
        entries := entries - {ids[0]};
        ids := ids[1..];
      }
    }

    function Get(id: nat): (found: Option<Registered>)
      requires Valid()
      reads this
      ensures found == if id in Newest(Recent(history)) then LatestOf(history, id) else None
    {
      if id in entries then Some(entries[id]) else None
    }
  }

  /** An image just registered is found, with the count of registrations as its generation. */
  lemma JustRegisteredIsFound(history: seq<Metadata>, metadata: Metadata)
    ensures var all := history + [metadata];
            metadata.imageId in Newest(Recent(all))
            && LatestOf(all, metadata.imageId) == Some(Registered(metadata, |all|))
  {
    var all := history + [metadata];
    var recent := Recent(all);
    assert recent[|recent| - 1] == metadata.imageId;
    assert Newest(recent)[|Newest(recent)| - 1] == recent[|recent| - 1];
  }

  // ----- What is written, character by character -----

  function Pair(key: char, n: nat): string { if n == 0 then "" else [',', key, '='] + Decimal(n) }

  /** The first command of an image: transmit and display a PNG, without replies; what is absent is left out. */
  function Header(options: Options): string {
    "\U{1B}_Ga=T,f=100,q=2" + (if options.moveCursor then "" else ",C=1")
    + Pair('c', options.columns) + Pair('r', options.rows) + Pair('i', options.imageId)
  }

  lemma {:induction false} JoinedConcat(a: seq<Control>, b: seq<Control>)
    requires a != []
    ensures JoinWith(Texts(a + b), ",") == JoinWith(Texts(a), ",") + After(b)
    decreases |a|
  {
    if |a| == 1 {
      AfterIs(a[0], b);
      assert a + b == [a[0]] + b && a == [a[0]] + [];
      AfterIs(a[0], []);
      assert a[0].Text() + "" == a[0].Text();
    } else {
      JoinedConcat(a[1..], b);
      assert (a + b)[1..] == a[1..] + b;
      Associative(a[0].Text() + ",", JoinWith(Texts(a[1..]), ","), After(b));
    }
  }

  /** Controls with a comma in front of each. */
  function After(controls: seq<Control>): string {
    if controls == [] then "" else "," + controls[0].Text() + After(controls[1..])
  }

  lemma {:induction false} AfterIs(first: Control, rest: seq<Control>)
    ensures JoinWith(Texts([first] + rest), ",") == first.Text() + After(rest)
    decreases |rest|
  {
    assert ([first] + rest)[1..] == rest;
    if rest == [] {
      assert first.Text() + "" == first.Text();
    } else {
      AfterIs(rest[0], rest[1..]);
      assert [rest[0]] + rest[1..] == rest;
      Associative(first.Text() + ",", rest[0].Text(), After(rest[1..]));
      Associative(first.Text(), ",", rest[0].Text() + After(rest[1..]));
    }
  }

  lemma {:induction false} AfterConcat(a: seq<Control>, b: seq<Control>)
    ensures After(a + b) == After(a) + After(b)
  {
    if a == [] {
      assert a + b == b;
    } else {
      AfterConcat(a[1..], b);
      assert (a + b)[1..] == a[1..] + b;
      Associative("," + a[0].Text(), After(a[1..]), After(b));
    }
  }

  lemma AfterNumber(key: char, n: nat)
    ensures After(Number(key, n)) == Pair(key, n)
  {
    if n > 0 {
      var c := Control(key, Decimal(n));
      assert [c][1..] == [] && "," + c.Text() + "" == [',', key, '='] + Decimal(n);
    }
  }

  lemma AfterPlacing(options: Options)
    ensures After(Placing(options))
            == (if options.moveCursor then "" else ",C=1") + Pair('c', options.columns) + Pair('r', options.rows) + Pair('i', options.imageId)
  {
    var cursor := if options.moveCursor then [] else [Control('C', "1")];
    var c, r, i := Number('c', options.columns), Number('r', options.rows), Number('i', options.imageId);
    AfterConcat(cursor + c + r, i);
    AfterConcat(cursor + c, r);
    AfterConcat(cursor, c);
    AfterNumber('c', options.columns);
    AfterNumber('r', options.rows);
    AfterNumber('i', options.imageId);
    if !options.moveCursor {
      var one := Control('C', "1");
      assert [one][1..] == [] && "," + one.Text() + "" == ",C=1";
    }
  }

  lemma TransmitText()
    ensures JoinWith(Texts(TRANSMIT), ",") == "a=T,f=100,q=2"
  {
    var a, f, q := Control('a', "T"), Control('f', "100"), Control('q', "2");
    assert TRANSMIT == [a] + [f, q] && [f, q][1..] == [q] && [q][1..] == [];
    AfterIs(a, [f, q]);
    assert a.Text() == "a=T" && f.Text() == "f=100" && q.Text() == "q=2";
    assert After([q]) == "," + "q=2" + "" && After([f, q]) == "," + "f=100" + After([q]);
  }

  lemma ParamsText(options: Options, more: seq<Control>)
    ensures KITTY_PREFIX + JoinWith(Texts(Params(options) + more), ",") == Header(options) + After(more)
  {
    TransmitText();
    AfterPlacing(options);
    JoinedConcat(TRANSMIT, Placing(options) + more);
    AfterConcat(Placing(options), more);
    assert Params(options) + more == TRANSMIT + (Placing(options) + more);
    HeaderIs(options, After(more));
  }

  lemma HeaderIs(options: Options, more: string)
    ensures KITTY_PREFIX + ("a=T,f=100,q=2"
                            + ((if options.moveCursor then "" else ",C=1") + Pair('c', options.columns) + Pair('r', options.rows)
                               + Pair('i', options.imageId) + more))
            == Header(options) + more
  {
  }

  lemma HeaderText(options: Options)
    ensures Header(options)
            == "\U{1B}_Ga=T,f=100,q=2" + (if options.moveCursor then "" else ",C=1")
               + (if options.columns == 0 then "" else ",c=" + Decimal(options.columns))
               + (if options.rows == 0 then "" else ",r=" + Decimal(options.rows))
               + (if options.imageId == 0 then "" else ",i=" + Decimal(options.imageId))
  {
    assert [',', 'c', '='] == ",c=" && [',', 'r', '='] == ",r=" && [',', 'i', '='] == ",i=";
  }

  /** An image that fits is one command. */
  lemma ShortImageText(payload: string, options: Options)
    requires |payload| <= 4096
    ensures var head := "\U{1B}_Ga=T,f=100,q=2" + (if options.moveCursor then "" else ",C=1")
                        + (if options.columns == 0 then "" else ",c=" + Decimal(options.columns))
                        + (if options.rows == 0 then "" else ",r=" + Decimal(options.rows))
                        + (if options.imageId == 0 then "" else ",i=" + Decimal(options.imageId));
            Encoding(payload, Params(options)) == head + ";" + payload + "\U{1B}\\"
  {
    ParamsText(options, []);
    HeaderText(options);
    assert Params(options) + [] == Params(options);
    assert Header(options) + "" == Header(options);
  }

  /** A longer one is several: each says whether more follow, and only the first has the other controls. */
  lemma LongImageText(payload: string, options: Options) returns (commands: seq<string>)
    requires |payload| > 4096
    ensures var chunks := Chunks(payload);
            var head := "\U{1B}_Ga=T,f=100,q=2" + (if options.moveCursor then "" else ",C=1")
                        + (if options.columns == 0 then "" else ",c=" + Decimal(options.columns))
                        + (if options.rows == 0 then "" else ",r=" + Decimal(options.rows))
                        + (if options.imageId == 0 then "" else ",i=" + Decimal(options.imageId));
            && |commands| == |chunks| > 1 && Encoding(payload, Params(options)) == Flatten(commands)
            && commands[0] == head + ",m=1" + ";" + chunks[0] + "\U{1B}\\"
            && forall k :: 0 < k < |chunks| ==>
                 commands[k] == (if k < |chunks| - 1 then "\U{1B}_Gm=1;" else "\U{1B}_Gm=0;") + chunks[k] + "\U{1B}\\"
  {
    var chunks := Chunks(payload);
    ChunksCarryPayload(payload);
    ParamsText(options, [MORE]);
    HeaderText(options);
    MoreText();
    var more := MoreCommandsText(chunks[1..]);
    var first := Command(Params(options) + [MORE], chunks[0]);
    commands := [first] + more;
    assert commands[1..] == more;
    assert forall k :: 0 < k < |chunks| ==> commands[k] == more[k - 1] && chunks[k] == chunks[1..][k - 1];
  }

  lemma MoreText()
    ensures After([MORE]) == ",m=1" && JoinWith(Texts([MORE]), ",") == "m=1" && JoinWith(Texts([LAST]), ",") == "m=0"
  {
    assert [MORE][1..] == [] && [LAST][1..] == [] && MORE.Text() == "m=1" && LAST.Text() == "m=0";
    assert "," + "m=1" + "" == ",m=1";
  }

  lemma {:induction false} MoreCommandsText(chunks: seq<string>) returns (commands: seq<string>)
    ensures |commands| == |chunks| && MoreCommands(chunks) == Flatten(commands)
    ensures forall k :: 0 <= k < |chunks| ==>
              commands[k] == (if k < |chunks| - 1 then "\U{1B}_Gm=1;" else "\U{1B}_Gm=0;") + chunks[k] + "\U{1B}\\"
  {
    MoreText();
    if chunks == [] {
      commands := [];
    } else {
      var rest := MoreCommandsText(chunks[1..]);
      var first := Command([if |chunks| == 1 then LAST else MORE], chunks[0]);
      commands := [first] + rest;
      assert commands[1..] == rest && first + "" == first;
      assert KITTY_PREFIX + "m=1" + ";" == "\U{1B}_Gm=1;" && KITTY_PREFIX + "m=0" + ";" == "\U{1B}_Gm=0;";
    }
  }

  // ----- What the registry remembers -----

  /** The last registration of an id, and how many there were up to it. */
  lemma {:induction false} LatestExactly(history: seq<Metadata>, id: nat)
    ensures var latest := LatestOf(history, id);
            && (latest.None? <==> forall k :: 0 <= k < |history| ==> history[k].imageId != id)
            && (latest.Some? ==>
                  var g := latest.value.generation;
                  && 0 < g <= |history| && history[g - 1].imageId == id && latest.value.metadata == history[g - 1]
                  && forall k :: g <= k < |history| ==> history[k].imageId != id)
  {
    if history != [] {
      LatestExactly(history[..|history| - 1], id);
    }
  }

  lemma {:induction false} WithoutKeepsOrder(ids: seq<nat>, id: nat, i: nat, j: nat) returns (a: nat, b: nat)
    requires i < j < |Without(ids, id)|
    ensures a < b < |ids| && ids[a] == Without(ids, id)[i] && ids[b] == Without(ids, id)[j]
  {
    if ids[0] == id {
      assert Without(ids, id) == Without(ids[1..], id);
      a, b := WithoutKeepsOrder(ids[1..], id, i, j);
      a, b := a + 1, b + 1;
    } else if i == 0 {
      assert Without(ids, id) == [ids[0]] + Without(ids[1..], id);
      assert Without(ids, id)[j] == Without(ids[1..], id)[j - 1] && Without(ids[1..], id)[j - 1] in ids[1..];
      a := 0;
      b :| 0 < b < |ids| && ids[b] == Without(ids, id)[j];
    } else {
      assert Without(ids, id) == [ids[0]] + Without(ids[1..], id);
      a, b := WithoutKeepsOrder(ids[1..], id, i - 1, j - 1);
      a, b := a + 1, b + 1;
    }
  }

  /** Ids stand in the order of their latest registrations, and all that were ever registered are there. */
  lemma {:induction false} RecentExactly(history: seq<Metadata>)
    ensures forall id :: id in Recent(history) <==> LatestOf(history, id).Some?
    ensures forall i, j :: 0 <= i < j < |Recent(history)| ==> IsEarlier(history, Recent(history)[i], Recent(history)[j])
  {
    if history != [] {
      var before, last := history[..|history| - 1], history[|history| - 1].imageId;
      RecentExactly(before);
      var recent, rest := Recent(before), Without(Recent(before), last);
      forall i, j | 0 <= i < j < |Recent(history)| ensures IsEarlier(history, Recent(history)[i], Recent(history)[j]) {
        assert rest[i] in rest;
        if j < |rest| {
          assert rest[j] in rest;
          var a, b := WithoutKeepsOrder(recent, last, i, j);
          assert IsEarlier(before, recent[a], recent[b]);
        } else {
          LatestExactly(before, rest[i]);
        }
      }
    }
  }

  /** The last registration of the one id was before that of the other. */
  ghost predicate IsEarlier(history: seq<Metadata>, a: nat, b: nat) {
    && LatestOf(history, a).Some? && LatestOf(history, b).Some?
    && LatestOf(history, a).value.generation < LatestOf(history, b).value.generation
  }

  /** Of more than a thousand ids the last thousand are kept. */
  lemma NewestExactly(ids: seq<nat>)
    ensures |Newest(ids)| == if |ids| < 1000 then |ids| else 1000
    ensures Newest(ids) == ids[|ids| - |Newest(ids)|..]
  {
  }
}
