/**
 * Worked examples of the RLE decoder: the two decodings of the pattern
 * "2o$bobo$3bo!" in a 4 by 4 field, without and with a margin, derived one
 * data character at a time. Each step is its own small lemma because the
 * solver runs out of resources on one long chain over these literals, and
 * reasoning through `Run` and `RowEnd` on literal data was no cheaper.
 */
module RleExamples {

  import opened Rle

  /** A padded sequence is the cells followed by the dead padding. */
  lemma PaddedAppend(r: seq<bool>, lives: seq<bool>, total: nat)
    requires PaddedFrom(r, lives, total) && |lives| <= total
    ensures r == lives + Cells(false, total - |lives|)
  {
    assert r[..|lives|] == lives;
    forall k | 0 <= k < total
      ensures r[k] == (lives + Cells(false, total - |lives|))[k]
    {
      if k < |lives| {
        assert r[k] == r[..|lives|][k];
      }
    }
  }

  /** Step 0 of the NoMargin example: feeding '2'. */
  lemma NoMarginStep0()
    ensures Expand(4, Decoder([], "", 0), "2o$bobo$3bo!") ==
            Expand(4, Decoder([], "2", 0), "o$bobo$3bo!")
  {
    assert Feed(4, Decoder([], "", 0), '2') == Decoder([], "2", 0);
    ExpandFeed(4, Decoder([], "", 0), "2o$bobo$3bo!");
    assert "2o$bobo$3bo!"[1..] == "o$bobo$3bo!";
  }

  /** Step 1 of the NoMargin example: feeding 'o'. */
  lemma NoMarginStep1()
    ensures Expand(4, Decoder([], "2", 0), "o$bobo$3bo!") ==
            Expand(4, Decoder([true, true], "", 2), "$bobo$3bo!")
  {
    assert Feed(4, Decoder([], "2", 0), 'o') == Decoder([true, true], "", 2);
    ExpandFeed(4, Decoder([], "2", 0), "o$bobo$3bo!");
    assert "o$bobo$3bo!"[1..] == "$bobo$3bo!";
  }

  /** Step 2 of the NoMargin example: feeding '$'. */
  lemma NoMarginStep2()
    ensures Expand(4, Decoder([true, true], "", 2), "$bobo$3bo!") ==
            Expand(4, Decoder([true, true, false, false], "", 0), "bobo$3bo!")
  {
    assert Feed(4, Decoder([true, true], "", 2), '$') == Decoder([true, true, false, false], "", 0);
    ExpandFeed(4, Decoder([true, true], "", 2), "$bobo$3bo!");
    assert "$bobo$3bo!"[1..] == "bobo$3bo!";
  }

  /** Step 3 of the NoMargin example: feeding 'b'. */
  lemma NoMarginStep3()
    ensures Expand(4, Decoder([true, true, false, false], "", 0), "bobo$3bo!") ==
            Expand(4, Decoder([true, true, false, false, false], "", 1), "obo$3bo!")
  {
    assert Feed(4, Decoder([true, true, false, false], "", 0), 'b') == Decoder([true, true, false, false, false], "", 1);
    ExpandFeed(4, Decoder([true, true, false, false], "", 0), "bobo$3bo!");
    assert "bobo$3bo!"[1..] == "obo$3bo!";
  }

  /** Step 4 of the NoMargin example: feeding 'o'. */
  lemma NoMarginStep4()
    ensures Expand(4, Decoder([true, true, false, false, false], "", 1), "obo$3bo!") ==
            Expand(4, Decoder([true, true, false, false, false, true], "", 2), "bo$3bo!")
  {
    assert Feed(4, Decoder([true, true, false, false, false], "", 1), 'o') == Decoder([true, true, false, false, false, true], "", 2);
    ExpandFeed(4, Decoder([true, true, false, false, false], "", 1), "obo$3bo!");
    assert "obo$3bo!"[1..] == "bo$3bo!";
  }

  /** Step 5 of the NoMargin example: feeding 'b'. */
  lemma NoMarginStep5()
    ensures Expand(4, Decoder([true, true, false, false, false, true], "", 2), "bo$3bo!") ==
            Expand(4, Decoder([true, true, false, false, false, true, false], "", 3), "o$3bo!")
  {
    assert Feed(4, Decoder([true, true, false, false, false, true], "", 2), 'b') == Decoder([true, true, false, false, false, true, false], "", 3);
    ExpandFeed(4, Decoder([true, true, false, false, false, true], "", 2), "bo$3bo!");
    assert "bo$3bo!"[1..] == "o$3bo!";
  }

  /** Step 6 of the NoMargin example: feeding 'o'. */
  lemma NoMarginStep6()
    ensures Expand(4, Decoder([true, true, false, false, false, true, false], "", 3), "o$3bo!") ==
            Expand(4, Decoder([true, true, false, false, false, true, false, true], "", 4), "$3bo!")
  {
    assert Feed(4, Decoder([true, true, false, false, false, true, false], "", 3), 'o') == Decoder([true, true, false, false, false, true, false, true], "", 4);
    ExpandFeed(4, Decoder([true, true, false, false, false, true, false], "", 3), "o$3bo!");
    assert "o$3bo!"[1..] == "$3bo!";
  }

  /** Step 7 of the NoMargin example: feeding '$'. */
  lemma NoMarginStep7()
    ensures Expand(4, Decoder([true, true, false, false, false, true, false, true], "", 4), "$3bo!") ==
            Expand(4, Decoder([true, true, false, false, false, true, false, true], "", 0), "3bo!")
  {
    assert Feed(4, Decoder([true, true, false, false, false, true, false, true], "", 4), '$') == Decoder([true, true, false, false, false, true, false, true], "", 0);
    ExpandFeed(4, Decoder([true, true, false, false, false, true, false, true], "", 4), "$3bo!");
    assert "$3bo!"[1..] == "3bo!";
  }

  /** Step 8 of the NoMargin example: feeding '3'. */
  lemma NoMarginStep8()
    ensures Expand(4, Decoder([true, true, false, false, false, true, false, true], "", 0), "3bo!") ==
            Expand(4, Decoder([true, true, false, false, false, true, false, true], "3", 0), "bo!")
  {
    assert Feed(4, Decoder([true, true, false, false, false, true, false, true], "", 0), '3') == Decoder([true, true, false, false, false, true, false, true], "3", 0);
    ExpandFeed(4, Decoder([true, true, false, false, false, true, false, true], "", 0), "3bo!");
    assert "3bo!"[1..] == "bo!";
  }

  /** Step 9 of the NoMargin example: feeding 'b'. */
  lemma NoMarginStep9()
    ensures Expand(4, Decoder([true, true, false, false, false, true, false, true], "3", 0), "bo!") ==
            Expand(4, Decoder([true, true, false, false, false, true, false, true, false, false, false], "", 3), "o!")
  {
    assert Feed(4, Decoder([true, true, false, false, false, true, false, true], "3", 0), 'b') == Decoder([true, true, false, false, false, true, false, true, false, false, false], "", 3);
    ExpandFeed(4, Decoder([true, true, false, false, false, true, false, true], "3", 0), "bo!");
    assert "bo!"[1..] == "o!";
  }

  /** Step 10 of the NoMargin example: feeding 'o'. */
  lemma NoMarginStep10()
    ensures Expand(4, Decoder([true, true, false, false, false, true, false, true, false, false, false], "", 3), "o!") ==
            Expand(4, Decoder([true, true, false, false, false, true, false, true, false, false, false, true], "", 4), "!")
  {
    assert Feed(4, Decoder([true, true, false, false, false, true, false, true, false, false, false], "", 3), 'o') == Decoder([true, true, false, false, false, true, false, true, false, false, false, true], "", 4);
    ExpandFeed(4, Decoder([true, true, false, false, false, true, false, true, false, false, false], "", 3), "o!");
    assert "o!"[1..] == "!";
  }

  /** The data of the NoMargin example, fed from its first cell on. */
  lemma NoMarginChain()
    ensures Expand(4, Decoder([], "", 0), "2o$bobo$3bo!") == Decoder([true, true, false, false, false, true, false, true, false, false, false, true], "", 4)
  {
    NoMarginStep0();
    NoMarginStep1();
    NoMarginStep2();
    NoMarginStep3();
    NoMarginStep4();
    NoMarginStep5();
    NoMarginStep6();
    NoMarginStep7();
    NoMarginStep8();
    NoMarginStep9();
    NoMarginStep10();
  }

  /** The top margin of the NoMargin example. */
  lemma NoMarginStart()
    ensures Start(4, 0) == Decoder([], "", 0)
  {
  }

  /** The expanded cells of the NoMargin example with their padding. */
  lemma NoMarginCells()
    ensures [true, true, false, false, false, true, false, true, false, false, false, true] + Cells(false, 4) ==
            [true, true, false, false,
             false, true, false, true,
             false, false, false, true,
             false, false, false, false]
  {
  }

  /** Decoding without margin: the cells are laid out row by row in a 4 by 4 field. */
  lemma NoMargin()
    ensures Decode(4, 4, 0, "2o$bobo$3bo!") ==
            [true, true, false, false,
             false, true, false, true,
             false, false, false, true,
             false, false, false, false]
  {
    assert PaddedWidth(4, 0) == 4 && Size(4, 4, 0) == 16;
    DecodePadding(4, 4, 0, "2o$bobo$3bo!");
    NoMarginStart();
    NoMarginChain();
    PaddedAppend(Decode(4, 4, 0, "2o$bobo$3bo!"), Expanded(4, 0, "2o$bobo$3bo!"), Size(4, 4, 0));
    NoMarginCells();
  }

  /** Step 0 of the Margin example: feeding '2'. */
  lemma MarginStep0()
    ensures Expand(8, Decoder([false, false, false, false, false, false, false, false, false, false, false, false, false, false, false, false, false, false], "", 0), "2o$bobo$3bo!") ==
            Expand(8, Decoder([false, false, false, false, false, false, false, false, false, false, false, false, false, false, false, false, false, false], "2", 0), "o$bobo$3bo!")
  {
    assert Feed(8, Decoder([false, false, false, false, false, false, false, false, false, false, false, false, false, false, false, false, false, false], "", 0), '2') == Decoder([false, false, false, false, false, false, false, false, false, false, false, false, false, false, false, false, false, false], "2", 0);
    ExpandFeed(8, Decoder([false, false, false, false, false, false, false, false, false, false, false, false, false, false, false, false, false, false], "", 0), "2o$bobo$3bo!");
    assert "2o$bobo$3bo!"[1..] == "o$bobo$3bo!";
  }

  /** Step 1 of the Margin example: feeding 'o'. */
  lemma MarginStep1()
    ensures Expand(8, Decoder([false, false, false, false, false, false, false, false, false, false, false, false, false, false, false, false, false, false], "2", 0), "o$bobo$3bo!") ==
            Expand(8, Decoder([false, false, false, false, false, false, false, false, false, false, false, false, false, false, false, false, false, false, true, true], "", 2), "$bobo$3bo!")
  {
    assert Feed(8, Decoder([false, false, false, false, false, false, false, false, false, false, false, false, false, false, false, false, false, false], "2", 0), 'o') == Decoder([false, false, false, false, false, false, false, false, false, false, false, false, false, false, false, false, false, false, true, true], "", 2);
    ExpandFeed(8, Decoder([false, false, false, false, false, false, false, false, false, false, false, false, false, false, false, false, false, false], "2", 0), "o$bobo$3bo!");
    assert "o$bobo$3bo!"[1..] == "$bobo$3bo!";
  }

  /** Step 2 of the Margin example: feeding '$'. */
  lemma MarginStep2()
    ensures Expand(8, Decoder([false, false, false, false, false, false, false, false, false, false, false, false, false, false, false, false, false, false, true, true], "", 2), "$bobo$3bo!") ==
            Expand(8, Decoder([false, false, false, false, false, false, false, false, false, false, false, false, false, false, false, false, false, false, true, true, false, false, false, false, false, false], "", 0), "bobo$3bo!")
  {
    assert Feed(8, Decoder([false, false, false, false, false, false, false, false, false, false, false, false, false, false, false, false, false, false, true, true], "", 2), '$') == Decoder([false, false, false, false, false, false, false, false, false, false, false, false, false, false, false, false, false, false, true, true, false, false, false, false, false, false], "", 0);
    ExpandFeed(8, Decoder([false, false, false, false, false, false, false, false, false, false, false, false, false, false, false, false, false, false, true, true], "", 2), "$bobo$3bo!");
    assert "$bobo$3bo!"[1..] == "bobo$3bo!";
  }

  /** Step 3 of the Margin example: feeding 'b'. */
  lemma MarginStep3()
    ensures Expand(8, Decoder([false, false, false, false, false, false, false, false, false, false, false, false, false, false, false, false, false, false, true, true, false, false, false, false, false, false], "", 0), "bobo$3bo!") ==
            Expand(8, Decoder([false, false, false, false, false, false, false, false, false, false, false, false, false, false, false, false, false, false, true, true, false, false, false, false, false, false, false], "", 1), "obo$3bo!")
  {
    assert Feed(8, Decoder([false, false, false, false, false, false, false, false, false, false, false, false, false, false, false, false, false, false, true, true, false, false, false, false, false, false], "", 0), 'b') == Decoder([false, false, false, false, false, false, false, false, false, false, false, false, false, false, false, false, false, false, true, true, false, false, false, false, false, false, false], "", 1);
    ExpandFeed(8, Decoder([false, false, false, false, false, false, false, false, false, false, false, false, false, false, false, false, false, false, true, true, false, false, false, false, false, false], "", 0), "bobo$3bo!");
    assert "bobo$3bo!"[1..] == "obo$3bo!";
  }

  /** Step 4 of the Margin example: feeding 'o'. */
  lemma MarginStep4()
    ensures Expand(8, Decoder([false, false, false, false, false, false, false, false, false, false, false, false, false, false, false, false, false, false, true, true, false, false, false, false, false, false, false], "", 1), "obo$3bo!") ==
            Expand(8, Decoder([false, false, false, false, false, false, false, false, false, false, false, false, false, false, false, false, false, false, true, true, false, false, false, false, false, false, false, true], "", 2), "bo$3bo!")
  {
    assert Feed(8, Decoder([false, false, false, false, false, false, false, false, false, false, false, false, false, false, false, false, false, false, true, true, false, false, false, false, false, false, false], "", 1), 'o') == Decoder([false, false, false, false, false, false, false, false, false, false, false, false, false, false, false, false, false, false, true, true, false, false, false, false, false, false, false, true], "", 2);
    ExpandFeed(8, Decoder([false, false, false, false, false, false, false, false, false, false, false, false, false, false, false, false, false, false, true, true, false, false, false, false, false, false, false], "", 1), "obo$3bo!");
    assert "obo$3bo!"[1..] == "bo$3bo!";
  }

  /** Step 5 of the Margin example: feeding 'b'. */
  lemma MarginStep5()
    ensures Expand(8, Decoder([false, false, false, false, false, false, false, false, false, false, false, false, false, false, false, false, false, false, true, true, false, false, false, false, false, false, false, true], "", 2), "bo$3bo!") ==
            Expand(8, Decoder([false, false, false, false, false, false, false, false, false, false, false, false, false, false, false, false, false, false, true, true, false, false, false, false, false, false, false, true, false], "", 3), "o$3bo!")
  {
    assert Feed(8, Decoder([false, false, false, false, false, false, false, false, false, false, false, false, false, false, false, false, false, false, true, true, false, false, false, false, false, false, false, true], "", 2), 'b') == Decoder([false, false, false, false, false, false, false, false, false, false, false, false, false, false, false, false, false, false, true, true, false, false, false, false, false, false, false, true, false], "", 3);
    ExpandFeed(8, Decoder([false, false, false, false, false, false, false, false, false, false, false, false, false, false, false, false, false, false, true, true, false, false, false, false, false, false, false, true], "", 2), "bo$3bo!");
    assert "bo$3bo!"[1..] == "o$3bo!";
  }

  /** Step 6 of the Margin example: feeding 'o'. */
  lemma MarginStep6()
    ensures Expand(8, Decoder([false, false, false, false, false, false, false, false, false, false, false, false, false, false, false, false, false, false, true, true, false, false, false, false, false, false, false, true, false], "", 3), "o$3bo!") ==
            Expand(8, Decoder([false, false, false, false, false, false, false, false, false, false, false, false, false, false, false, false, false, false, true, true, false, false, false, false, false, false, false, true, false, true], "", 4), "$3bo!")
  {
    assert Feed(8, Decoder([false, false, false, false, false, false, false, false, false, false, false, false, false, false, false, false, false, false, true, true, false, false, false, false, false, false, false, true, false], "", 3), 'o') == Decoder([false, false, false, false, false, false, false, false, false, false, false, false, false, false, false, false, false, false, true, true, false, false, false, false, false, false, false, true, false, true], "", 4);
    ExpandFeed(8, Decoder([false, false, false, false, false, false, false, false, false, false, false, false, false, false, false, false, false, false, true, true, false, false, false, false, false, false, false, true, false], "", 3), "o$3bo!");
    assert "o$3bo!"[1..] == "$3bo!";
  }

  /** Step 7 of the Margin example: feeding '$'. */
  lemma MarginStep7()
    ensures Expand(8, Decoder([false, false, false, false, false, false, false, false, false, false, false, false, false, false, false, false, false, false, true, true, false, false, false, false, false, false, false, true, false, true], "", 4), "$3bo!") ==
            Expand(8, Decoder([false, false, false, false, false, false, false, false, false, false, false, false, false, false, false, false, false, false, true, true, false, false, false, false, false, false, false, true, false, true, false, false, false, false], "", 0), "3bo!")
  {
    assert Feed(8, Decoder([false, false, false, false, false, false, false, false, false, false, false, false, false, false, false, false, false, false, true, true, false, false, false, false, false, false, false, true, false, true], "", 4), '$') == Decoder([false, false, false, false, false, false, false, false, false, false, false, false, false, false, false, false, false, false, true, true, false, false, false, false, false, false, false, true, false, true, false, false, false, false], "", 0);
    ExpandFeed(8, Decoder([false, false, false, false, false, false, false, false, false, false, false, false, false, false, false, false, false, false, true, true, false, false, false, false, false, false, false, true, false, true], "", 4), "$3bo!");
    assert "$3bo!"[1..] == "3bo!";
  }

  /** Step 8 of the Margin example: feeding '3'. */
  lemma MarginStep8()
    ensures Expand(8, Decoder([false, false, false, false, false, false, false, false, false, false, false, false, false, false, false, false, false, false, true, true, false, false, false, false, false, false, false, true, false, true, false, false, false, false], "", 0), "3bo!") ==
            Expand(8, Decoder([false, false, false, false, false, false, false, false, false, false, false, false, false, false, false, false, false, false, true, true, false, false, false, false, false, false, false, true, false, true, false, false, false, false], "3", 0), "bo!")
  {
    assert Feed(8, Decoder([false, false, false, false, false, false, false, false, false, false, false, false, false, false, false, false, false, false, true, true, false, false, false, false, false, false, false, true, false, true, false, false, false, false], "", 0), '3') == Decoder([false, false, false, false, false, false, false, false, false, false, false, false, false, false, false, false, false, false, true, true, false, false, false, false, false, false, false, true, false, true, false, false, false, false], "3", 0);
    ExpandFeed(8, Decoder([false, false, false, false, false, false, false, false, false, false, false, false, false, false, false, false, false, false, true, true, false, false, false, false, false, false, false, true, false, true, false, false, false, false], "", 0), "3bo!");
    assert "3bo!"[1..] == "bo!";
  }

  /** Step 9 of the Margin example: feeding 'b'. */
  lemma MarginStep9()
    ensures Expand(8, Decoder([false, false, false, false, false, false, false, false, false, false, false, false, false, false, false, false, false, false, true, true, false, false, false, false, false, false, false, true, false, true, false, false, false, false], "3", 0), "bo!") ==
            Expand(8, Decoder([false, false, false, false, false, false, false, false, false, false, false, false, false, false, false, false, false, false, true, true, false, false, false, false, false, false, false, true, false, true, false, false, false, false, false, false, false], "", 3), "o!")
  {
    assert Feed(8, Decoder([false, false, false, false, false, false, false, false, false, false, false, false, false, false, false, false, false, false, true, true, false, false, false, false, false, false, false, true, false, true, false, false, false, false], "3", 0), 'b') == Decoder([false, false, false, false, false, false, false, false, false, false, false, false, false, false, false, false, false, false, true, true, false, false, false, false, false, false, false, true, false, true, false, false, false, false, false, false, false], "", 3);
    ExpandFeed(8, Decoder([false, false, false, false, false, false, false, false, false, false, false, false, false, false, false, false, false, false, true, true, false, false, false, false, false, false, false, true, false, true, false, false, false, false], "3", 0), "bo!");
    assert "bo!"[1..] == "o!";
  }

  /** Step 10 of the Margin example: feeding 'o'. */
  lemma MarginStep10()
    ensures Expand(8, Decoder([false, false, false, false, false, false, false, false, false, false, false, false, false, false, false, false, false, false, true, true, false, false, false, false, false, false, false, true, false, true, false, false, false, false, false, false, false], "", 3), "o!") ==
            Expand(8, Decoder([false, false, false, false, false, false, false, false, false, false, false, false, false, false, false, false, false, false, true, true, false, false, false, false, false, false, false, true, false, true, false, false, false, false, false, false, false, true], "", 4), "!")
  {
    assert Feed(8, Decoder([false, false, false, false, false, false, false, false, false, false, false, false, false, false, false, false, false, false, true, true, false, false, false, false, false, false, false, true, false, true, false, false, false, false, false, false, false], "", 3), 'o') == Decoder([false, false, false, false, false, false, false, false, false, false, false, false, false, false, false, false, false, false, true, true, false, false, false, false, false, false, false, true, false, true, false, false, false, false, false, false, false, true], "", 4);
    ExpandFeed(8, Decoder([false, false, false, false, false, false, false, false, false, false, false, false, false, false, false, false, false, false, true, true, false, false, false, false, false, false, false, true, false, true, false, false, false, false, false, false, false], "", 3), "o!");
    assert "o!"[1..] == "!";
  }

  /** The data of the Margin example, fed from its first cell on. */
  lemma MarginChain()
    ensures Expand(8, Decoder([false, false, false, false, false, false, false, false, false, false, false, false, false, false, false, false, false, false], "", 0), "2o$bobo$3bo!") == Decoder([false, false, false, false, false, false, false, false, false, false, false, false, false, false, false, false, false, false, true, true, false, false, false, false, false, false, false, true, false, true, false, false, false, false, false, false, false, true], "", 4)
  {
    MarginStep0();
    MarginStep1();
    MarginStep2();
    MarginStep3();
    MarginStep4();
    MarginStep5();
    MarginStep6();
    MarginStep7();
    MarginStep8();
    MarginStep9();
    MarginStep10();
  }

  /** The top margin of the Margin example. */
  lemma MarginStart()
    ensures Start(8, 2) == Decoder([false, false, false, false, false, false, false, false, false, false, false, false, false, false, false, false, false, false], "", 0)
  {
  }

  /** The expanded cells of the Margin example with their padding. */
  lemma MarginCells()
    ensures [false, false, false, false, false, false, false, false, false, false, false, false, false, false, false, false, false, false, true, true, false, false, false, false, false, false, false, true, false, true, false, false, false, false, false, false, false, true] + Cells(false, 26) ==
            [false, false, false, false, false, false, false, false,
             false, false, false, false, false, false, false, false,
             false, false, true, true, false, false, false, false,
             false, false, false, true, false, true, false, false,
             false, false, false, false, false, true, false, false,
             false, false, false, false, false, false, false, false,
             false, false, false, false, false, false, false, false,
             false, false, false, false, false, false, false, false]
  {
  }

  /** Decoding with a margin of 2: the same rows, each shifted two columns right and two rows down in an 8 by 8 field. */
  lemma Margin()
    ensures Decode(4, 4, 2, "2o$bobo$3bo!") ==
            [false, false, false, false, false, false, false, false,
             false, false, false, false, false, false, false, false,
             false, false, true, true, false, false, false, false,
             false, false, false, true, false, true, false, false,
             false, false, false, false, false, true, false, false,
             false, false, false, false, false, false, false, false,
             false, false, false, false, false, false, false, false,
             false, false, false, false, false, false, false, false]
  {
    assert PaddedWidth(4, 2) == 8 && Size(4, 4, 2) == 64;
    DecodePadding(4, 4, 2, "2o$bobo$3bo!");
    MarginStart();
    MarginChain();
    PaddedAppend(Decode(4, 4, 2, "2o$bobo$3bo!"), Expanded(8, 2, "2o$bobo$3bo!"), Size(4, 4, 2));
    MarginCells();
  }
}

