/** The string helpers of the pytest tutorial: reversal and a palindrome test that ignores
    blanks and letter case. */
module StringUtils {
  import opened Chars
  import opened Sequences

  /** `text[::-1]`: character `k` of the result is character `|text| - 1 - k` of the input. */
  function Reverse(text: string): (r: string)
    ensures |r| == |text|
    ensures forall k :: 0 <= k < |text| ==> r[k] == text[|text| - 1 - k]
  {
    forall k | 0 <= k < |text| ensures Reversed(text)[k] == text[|text| - 1 - k] {
      ReversedAt(text, k);
    }
    Reversed(text)
  }

  /** Reversing twice gives back the text. */
  lemma ReverseTwice(text: string)
    ensures Reverse(Reverse(text)) == text
  {
    ReversedTwice(text);
  }

  /** `text.replace(" ", "")`: the text with every blank taken out, order kept. */
  function WithoutBlanks(text: string): (r: string)
    ensures |r| <= |text|
    ensures forall k :: 0 <= k < |r| ==> r[k] != ' '
  {
    if text == [] then []
    else if text[0] == ' ' then WithoutBlanks(text[1..])
    else [text[0]] + WithoutBlanks(text[1..])
  }

  /** Each character equals its mirror image. */
  predicate Mirrored(t: string)
  {
    forall k :: 0 <= k < |t| ==> t[k] == t[|t| - 1 - k]
  }

  /** A text equals its reverse exactly when it is mirrored. */
  lemma MirroredIffReversed(t: string)
    ensures t == Reverse(t) <==> Mirrored(t)
  {
    if Mirrored(t) {
      assert forall k :: 0 <= k < |t| ==> t[k] == Reverse(t)[k];
    }
  }

  /** `is_palindrome`: the text without blanks, in lower case, reads the same both ways. */
  function IsPalindrome(text: string): (r: bool)
    ensures r <==> Mirrored(Lower(WithoutBlanks(text)))
  {
    var t := Lower(WithoutBlanks(text));
    MirroredIffReversed(t);
    t == Reverse(t)
  }

  /** A text without blanks is left as it is. */
  lemma {:induction false} NoBlanks(s: string)
    requires forall k :: 0 <= k < |s| ==> s[k] != ' '
    ensures WithoutBlanks(s) == s
    decreases |s|
  {
    if s != [] {
      NoBlanks(s[1..]);
    }
  }

  /** Text without capitals is its own lower case. */
  lemma NoCapitals(s: string)
    requires forall k :: 0 <= k < |s| ==> !IsUpper(s[k])
    ensures Lower(s) == s
  {
  }

  lemma ReverseExamples()
    ensures Reverse("hello") == "olleh"
    ensures Reverse("") == ""
  {
  }

  lemma PalindromeExamples()
    ensures IsPalindrome("radar") && IsPalindrome("") && IsPalindrome("a")
  {
    NoBlanks("radar");
    NoCapitals("radar");
    NoBlanks("a");
    NoCapitals("a");
  }

  /** Taking blanks out distributes over concatenation. */
  lemma {:induction false} BlanksAppend(x: string, y: string)
    ensures WithoutBlanks(x + y) == WithoutBlanks(x) + WithoutBlanks(y)
    decreases |x|
  {
    if x == [] {
      assert x + y == y;
    } else {
      assert (x + y)[1..] == x[1..] + y;
      BlanksAppend(x[1..], y);
    }
  }

  /** A blank-free word after a text: only the text's blanks go. */
  lemma BlankWord(x: string, w: string)
    requires forall k :: 0 <= k < |w| ==> w[k] != ' '
    ensures WithoutBlanks(x + " " + w) == WithoutBlanks(x) + w
  {
    BlanksAppend(x + " ", w);
    BlanksAppend(x, " ");
    NoBlanks(w);
  }

  /** `is_palindrome` ignores a blank anywhere in the text. */
  lemma BlankIgnored(x: string, y: string)
    ensures IsPalindrome(x + " " + y) == IsPalindrome(x + y)
  {
    BlanksAppend(x + " ", y);
    BlanksAppend(x, " ");
    BlanksAppend(x, y);
    assert WithoutBlanks(" ") == [];
    assert WithoutBlanks(x + " " + y) == WithoutBlanks(x + y);
  }

  /** Taking blanks out and lowering letters commute: lowering never makes or removes a blank. */
  lemma {:induction false} BlanksLower(text: string)
    ensures WithoutBlanks(Lower(text)) == Lower(WithoutBlanks(text))
    decreases |text|
  {
    if text != [] {
      assert Lower(text)[1..] == Lower(text[1..]);
      BlanksLower(text[1..]);
      if text[0] != ' ' {
        assert Lower([text[0]] + WithoutBlanks(text[1..])) == [ToLower(text[0])] + Lower(WithoutBlanks(text[1..]));
      }
    }
  }

  /** `is_palindrome` ignores letter case: lowering the text first changes nothing. */
  lemma CaseIgnored(text: string)
    ensures IsPalindrome(Lower(text)) == IsPalindrome(text)
  {
    BlanksLower(text);
    var t := WithoutBlanks(text);
    assert Lower(Lower(t)) == Lower(t);
  }

  /** Blanks and capitals are ignored. */
  lemma PanamaExample()
    ensures IsPalindrome("A man a plan a canal Panama")
  {
    PanamaBlanks("A man a plan a canal Panama");
    PanamaLower();
    PanamaMirrored();
  }

  lemma PanamaBlanks(s: string)
    requires s == "A man a plan a canal Panama"
    ensures WithoutBlanks(s) == "AmanaplanacanalPanama"
  {
    var p4 := "A" + " " + "man" + " " + "a" + " " + "plan";
    var p5 := p4 + " " + "a";
    var p6 := p5 + " " + "canal";
    PanamaSplit(s);
    PanamaHead(p4);
    BlankWord(p4, "a");
    assert WithoutBlanks(p5) == "Amanaplana";
    BlankWord(p5, "canal");
    assert WithoutBlanks(p6) == "Amanaplanacanal";
    BlankWord(p6, "Panama");
  }

  lemma PanamaSplit(s: string)
    requires s == "A man a plan a canal Panama"
    ensures s == "A" + " " + "man" + " " + "a" + " " + "plan" + " " + "a" + " " + "canal" + " " + "Panama"
  {
  }

  lemma PanamaHead(p: string)
    requires p == "A" + " " + "man" + " " + "a" + " " + "plan"
    ensures WithoutBlanks(p) == "Amanaplan"
  {
    var p1 := "A";
    var p2 := p1 + " " + "man";
    var p3 := p2 + " " + "a";
    NoBlanks(p1);
    BlankWord(p1, "man");
    assert WithoutBlanks(p2) == "Aman";
    BlankWord(p2, "a");
    assert WithoutBlanks(p3) == "Amana";
    BlankWord(p3, "plan");
  }

  lemma PanamaLower()
    ensures Lower("AmanaplanacanalPanama") == "amanaplanacanalpanama"
  {
  }

  lemma PanamaMirrored()
    ensures Mirrored("amanaplanacanalpanama")
  {
  }

  lemma NotPalindromeExamples()
    ensures !IsPalindrome("hello") && !IsPalindrome("python") && !IsPalindrome("test")
  {
    NotHello();
    NotPython();
    NotTest();
  }

  lemma NotHello()
    ensures !IsPalindrome("hello")
  {
    NotPalindrome("hello", 0);
  }

  lemma NotPython()
    ensures !IsPalindrome("python")
  {
    NotPalindrome("python", 0);
  }

  lemma NotTest()
    ensures !IsPalindrome("test")
  {
    NotPalindrome("test", 1);
  }

  /** A lower-case word with a letter that differs from its mirror image is not a palindrome. */
  lemma NotPalindrome(w: string, i: nat)
    requires i < |w| && w[i] != w[|w| - 1 - i]
    requires forall k :: 0 <= k < |w| ==> IsLower(w[k])
    ensures !IsPalindrome(w)
  {
    NoBlanks(w);
    NoCapitals(w);
  }
}
