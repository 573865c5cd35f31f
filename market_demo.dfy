/**
 * The demonstration vector carried through to the market client: the text the
 * decompressor yields for it (_test_proj/main2.go:245-272) is a two-record
 * market list, and `GetMarketList` reads it as two objects.
 */
module MarketDemo {
  import opened Wrappers
  import opened MarketText
  import Huffman
  import Demo

  /** Bytes read as text, one character per byte, as Go's string conversion does for bytes below 128. */
  function AsText(bs: seq<Huffman.byte>): (s: string)
    ensures |s| == |bs| && forall i :: 0 <= i < |bs| ==> s[i] as int == bs[i]
  {
    seq(|bs|, i requires 0 <= i < |bs| => bs[i] as char)
  }

  /** The text the demonstration vector decompresses to: two market-list records, each closed by `|`. */
  const DemoText: string := "53801-198-55428-4050" + "|" + ("53802-0-17725-70000" + "|")

  const DemoObjects: seq<MarketListObject> :=
    [MarketListObject(53801, 198, 55428, 4050), MarketListObject(53802, 0, 17725, 70000)]

  /** The decompressed demonstration vector is the two-record text. */
  lemma DemoTextOfOutput()
    ensures AsText(Demo.DemoOutput) == DemoText
  {
    var t := AsText(Demo.DemoOutput);
    assert |t| == |DemoText|;
    forall i | 0 <= i < |t| ensures t[i] == DemoText[i] {
      assert t[i] as int == Demo.DemoOutput[i];
    }
  }

  /** The record text of demonstration object 0. */
  lemma DemoRecord0()
    ensures MarketRecord(DemoObjects[0]) == "53801-198-55428-4050"
  {
    Format53801();
    Format198();
    Format55428();
    Format4050();
    JoinFour("53801", "198", "55428", "4050", '-');
  }

  /** The record text of demonstration object 1. */
  lemma DemoRecord1()
    ensures MarketRecord(DemoObjects[1]) == "53802-0-17725-70000"
  {
    Format53802();
    Format0();
    Format17725();
    Format70000();
    JoinFour("53802", "0", "17725", "70000", '-');
  }

  lemma Format53801()
    ensures FormatInt(53801) == "53801"
  {
    DigitsStep(5, 3);
    DigitsStep(53, 8);
    DigitsStep(538, 0);
    DigitsStep(5380, 1);
  }

  lemma Format198()
    ensures FormatInt(198) == "198"
  {
    DigitsStep(1, 9);
    DigitsStep(19, 8);
  }

  lemma Format55428()
    ensures FormatInt(55428) == "55428"
  {
    DigitsStep(5, 5);
    DigitsStep(55, 4);
    DigitsStep(554, 2);
    DigitsStep(5542, 8);
  }

  lemma Format4050()
    ensures FormatInt(4050) == "4050"
  {
    DigitsStep(4, 0);
    DigitsStep(40, 5);
    DigitsStep(405, 0);
  }

  lemma Format53802()
    ensures FormatInt(53802) == "53802"
  {
    DigitsStep(5, 3);
    DigitsStep(53, 8);
    DigitsStep(538, 0);
    DigitsStep(5380, 2);
  }

  lemma Format0()
    ensures FormatInt(0) == "0"
  {
  }

  lemma Format17725()
    ensures FormatInt(17725) == "17725"
  {
    DigitsStep(1, 7);
    DigitsStep(17, 7);
    DigitsStep(177, 2);
    DigitsStep(1772, 5);
  }

  lemma Format70000()
    ensures FormatInt(70000) == "70000"
  {
    DigitsStep(7, 0);
    DigitsStep(70, 0);
    DigitsStep(700, 0);
    DigitsStep(7000, 0);
  }

  /** The demonstration text is the two objects written out as a market list. */
  lemma DemoListText()
    ensures MarketListText(DemoObjects) == DemoText
  {
    DemoRecord0();
    DemoRecord1();
    var r0, r1 := "53801-198-55428-4050", "53802-0-17725-70000";
    var recs := seq(2, k requires 0 <= k < 2 => MarketRecord(DemoObjects[k]));
    PairEq(recs, r0, r1);
    LinesTwo(r0, r1);
  }

  lemma JoinFour(a: string, b: string, c: string, d: string, sep: char)
    ensures Join([a, b, c, d], sep) == a + [sep] + (b + [sep] + (c + [sep] + d))
  {
    assert [a, b, c, d][1..] == [b, c, d];
    JoinThree(b, c, d, sep);
  }

  lemma PairEq<T>(s: seq<T>, a: T, b: T)
    requires |s| == 2 && s[0] == a && s[1] == b
    ensures s == [a, b]
  {
  }

  lemma LinesTwo(a: string, b: string)
    ensures Lines([a, b]) == a + "|" + (b + "|")
  {
    assert [a, b][1..] == [b] && [b][1..] == [];
    assert Lines([b]) == b + ['|'] + [] == b + "|";
    assert Lines([a, b]) == a + ['|'] + Lines([b]);
  }

  /** `GetMarketList` reads the demonstration text as the two objects it spells out. */
  lemma DemoMarketList()
    ensures MarketList(AsText(Demo.DemoOutput)) == Ok(DemoObjects)
  {
    DemoTextOfOutput();
    DemoListText();
    MarketListRoundTrip(DemoObjects);
  }
}
