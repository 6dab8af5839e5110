/** The payment page: the input normalisers of `handleChange`, the form record, the test data
    and the guard that shows "Session Expired" when there is no booking to pay for. */
module Payment {
  import opened Wrappers
  import Seqs
  import Text
  import opened Booking

  /** The form record: field name to current text. `{...prev, [name]: v}` is a map update. */
  type Form = map<string, string>

  const FieldNames: seq<string> := ["cardHolder", "cardNumber", "expiry", "cvc", "email", "address", "city", "zip"]

  /** The initial form: every field empty. */
  function InitialForm(): (f: Form)
    ensures f.Keys == set n | n in FieldNames
    ensures forall k :: k in f ==> f[k] == ""
  {
    map n | n in FieldNames :: ""
  }

  /** `fillMockData`: the fixed test card and billing details, one for every field of the form. */
  function MockData(): (f: Form)
    ensures f.Keys == InitialForm().Keys
  {
    map[
      "cardHolder" := "TEST USER",
      "cardNumber" := "4242 4242 4242 4242",
      "expiry" := "12/28",
      "cvc" := "123",
      "email" := "test@tripwise.pk",
      "address" := "123 Mock Street, F-7/2",
      "city" := "Islamabad",
      "zip" := "44000"]
  }

  predicate NotSpace(c: char) { c != ' ' }

  /** `match(/.{1,4}/g).join(' ')`: blocks of four characters separated by single spaces. */
  function Group4(d: string): (r: string)
    ensures |r| == (if d == [] then 0 else |d| + (|d| - 1) / 4)
    decreases |d|
  {
    if |d| <= 4 then d else d[..4] + " " + Group4(d[4..])
  }

  /** The grouped text has a space exactly at every fifth position, never at the end,
      and otherwise only characters of the input. */
  lemma {:induction false} Group4Shape(d: string)
    requires ' ' !in d
    ensures var r := Group4(d);
      && (forall i :: 0 <= i < |r| ==> (r[i] == ' ' <==> i % 5 == 4))
      && (r == [] || r[|r| - 1] != ' ')
    decreases |d|
  {
    if |d| > 4 {
      var rest := Group4(d[4..]);
      Group4Shape(d[4..]);
      var r := d[..4] + " " + rest;
      assert r == Group4(d);
      forall i | 0 <= i < |r| ensures r[i] == ' ' <==> i % 5 == 4 {
        if i < 4 {
          assert r[i] == d[i];
        } else if i > 4 {
          assert r[i] == rest[i - 5];
          assert (i - 5) % 5 == i % 5;
        }
      }
    }
  }

  /** Grouping adds only spaces: any filter that drops spaces sees the original characters. */
  lemma {:induction false} Group4Filter(d: string, p: char -> bool)
    requires ' ' !in d && !p(' ')
    ensures Seqs.Filter(Group4(d), p) == Seqs.Filter(d, p)
    decreases |d|
  {
    if |d| > 4 {
      var block, tail := d[..4], d[4..];
      Group4Filter(tail, p);
      assert Group4(d) == (block + " ") + Group4(tail);
      Seqs.FilterAppend(block + " ", Group4(tail), p);
      Seqs.FilterAppend(block, " ", p);
      assert Seqs.Filter(" ", p) == [];
      assert Seqs.Filter(block + " ", p) == Seqs.Filter(block, p);
      Seqs.FilterAppend(block, tail, p);
      assert d == block + tail;
    }
  }

  /** The `cardNumber` normaliser (the grouped form once there are four digits, else the bare digits). */
  function FormatCardNumber(value: string): (r: string)
    ensures forall i :: 0 <= i < |r| ==> Text.IsDigit(r[i]) || r[i] == ' '
    ensures |r| <= 19 && |Text.Digits(r)| <= 16
    ensures Text.Digits(r) == Seqs.Take(Text.Digits(value), 16)
    ensures Seqs.Filter(r, NotSpace) == Seqs.Take(Text.Digits(value), 16)
    ensures forall i :: 0 <= i < |r| ==> (r[i] == ' ' <==> i % 5 == 4)
    ensures r == [] || r[|r| - 1] != ' '
  {
    var kept := Seqs.Take(Text.Digits(value), 16);
    if |Text.Digits(value)| >= 4 then
      CardNumberShape(kept);
      Group4(kept)
    else
      ShortCardNumberShape(kept);
      kept
  }

  /** The facts behind `FormatCardNumber`, for a digit string of at most 16 digits grouped in fours. */
  lemma CardNumberShape(kept: string)
    requires |kept| <= 16
    requires forall i :: 0 <= i < |kept| ==> Text.IsDigit(kept[i])
    ensures var r := Group4(kept);
      && (forall i :: 0 <= i < |r| ==> Text.IsDigit(r[i]) || r[i] == ' ')
      && |r| <= 19
      && Text.Digits(r) == kept
      && Seqs.Filter(r, NotSpace) == kept
      && (forall i :: 0 <= i < |r| ==> (r[i] == ' ' <==> i % 5 == 4))
      && (r == [] || r[|r| - 1] != ' ')
  {
    assert ' ' !in kept;
    Text.DigitsOfDigits(kept);
    Seqs.FilterAll(kept, NotSpace);
    Group4Shape(kept);
    Group4Filter(kept, Text.IsDigit);
    Group4Filter(kept, NotSpace);
    GroupedLength(kept);
    GroupedChars(Group4(kept), kept);
  }

  /** Sixteen characters at most are grouped into nineteen at most. */
  lemma GroupedLength(kept: string)
    requires |kept| <= 16
    ensures |Group4(kept)| <= 19
  {
  }

  /** A text whose non-space characters are digits holds only digits and spaces. */
  lemma GroupedChars(g: string, kept: string)
    requires Seqs.Filter(g, NotSpace) == kept
    requires forall i :: 0 <= i < |kept| ==> Text.IsDigit(kept[i])
    ensures forall i :: 0 <= i < |g| ==> Text.IsDigit(g[i]) || g[i] == ' '
  {
    forall i | 0 <= i < |g| ensures Text.IsDigit(g[i]) || g[i] == ' ' {
      if g[i] != ' ' {
        assert g[i] in Seqs.Filter(g, NotSpace);
      }
    }
  }

  /** The same facts for a digit string shorter than four, kept as it is. */
  lemma ShortCardNumberShape(kept: string)
    requires |kept| < 4
    requires forall i :: 0 <= i < |kept| ==> Text.IsDigit(kept[i])
    ensures Text.Digits(kept) == kept && Seqs.Filter(kept, NotSpace) == kept
    ensures forall i :: 0 <= i < |kept| ==> (kept[i] == ' ' <==> i % 5 == 4)
  {
    Text.DigitsOfDigits(kept);
    Seqs.FilterAll(kept, NotSpace);
    forall i | 0 <= i < |kept| ensures (kept[i] == ' ' <==> i % 5 == 4) {
      assert Text.IsDigit(kept[i]);
      SmallRemainder(i);
    }
  }

  lemma SmallRemainder(i: int)
    requires 0 <= i < 4
    ensures i % 5 == i
  {
  }

  /** Re-formatting a formatted card number changes nothing. */
  lemma CardNumberIdempotent(value: string)
    ensures FormatCardNumber(FormatCardNumber(value)) == FormatCardNumber(value)
  {
    var d := Text.Digits(value);
    var r := FormatCardNumber(value);
    assert Text.Digits(r) == Seqs.Take(d, 16);
    assert Seqs.Take(Seqs.Take(d, 16), 16) == Seqs.Take(d, 16);
  }

  /** The `expiry` normaliser: up to four digits, with `/` after the second once there are three. */
  function FormatExpiry(value: string): (r: string)
    ensures |r| <= 5
    ensures Text.Digits(r) == Seqs.Take(Text.Digits(value), 4)
    ensures '/' in r <==> |Seqs.Take(Text.Digits(value), 4)| >= 3
    ensures '/' in r ==> |r| >= 4 && r[2] == '/' && forall i :: 0 <= i < |r| && i != 2 ==> Text.IsDigit(r[i])
    ensures '/' !in r ==> forall i :: 0 <= i < |r| ==> Text.IsDigit(r[i])
  {
    var v := Seqs.Take(Text.Digits(value), 4);
    if |v| >= 3 then
      SlashShape(v);
      v[..2] + "/" + v[2..]
    else
      Text.DigitsOfDigits(v);
      v
  }

  /** Inserting `/` after the first two of three or four digits. */
  lemma SlashShape(v: string)
    requires 3 <= |v| <= 4
    requires forall i :: 0 <= i < |v| ==> Text.IsDigit(v[i])
    ensures var r := v[..2] + "/" + v[2..];
      && |r| == |v| + 1 && r[2] == '/'
      && (forall i :: 0 <= i < |r| && i != 2 ==> Text.IsDigit(r[i]))
      && Text.Digits(r) == v
  {
    SlashPositions(v);
    SlashDigitsOf(v);
  }

  /** The digits of `v[..2] + "/" + v[2..]` are `v`, for a digit string `v`. */
  lemma SlashDigitsOf(v: string)
    requires 2 <= |v|
    requires forall i :: 0 <= i < |v| ==> Text.IsDigit(v[i])
    ensures Text.Digits(v[..2] + "/" + v[2..]) == v
  {
    var a, b := v[..2], v[2..];
    assert forall i :: 0 <= i < |a| ==> a[i] == v[i];
    assert forall i :: 0 <= i < |b| ==> b[i] == v[i + 2];
    SlashDigits(a, b);
    assert a + b == v;
  }

  /** Every position of `a/b` other than the slash holds a digit. */
  lemma SlashPositions(v: string)
    requires 2 <= |v|
    requires forall i :: 0 <= i < |v| ==> Text.IsDigit(v[i])
    ensures var r := v[..2] + "/" + v[2..];
      |r| == |v| + 1 && r[2] == '/' && forall i :: 0 <= i < |r| && i != 2 ==> Text.IsDigit(r[i])
  {
    var r := v[..2] + "/" + v[2..];
    forall i | 0 <= i < |r| && i != 2 ensures Text.IsDigit(r[i]) {
      if i < 2 {
        assert r[i] == v[i];
      } else {
        assert r[i] == v[i - 1];
      }
    }
  }

  /** The slash is not a digit: the digits of `a/b` are those of `a` and then `b`. */
  lemma SlashDigits(a: string, b: string)
    requires forall i :: 0 <= i < |a| ==> Text.IsDigit(a[i])
    requires forall i :: 0 <= i < |b| ==> Text.IsDigit(b[i])
    ensures Text.Digits(a + "/" + b) == a + b
  {
    Text.DigitsOfDigits(a);
    Text.DigitsOfDigits(b);
    assert Text.Digits("/") == [];
    Text.DigitsAppend(a, "/");
    var x := Text.Digits(a + "/");
    assert x == a + [];
    assert x == a;
    Text.DigitsAppend(a + "/", b);
    assert Text.Digits(a + "/" + b) == x + Text.Digits(b);
  }

  /** Re-formatting a formatted expiry date changes nothing. */
  lemma ExpiryIdempotent(value: string)
    ensures FormatExpiry(FormatExpiry(value)) == FormatExpiry(value)
  {
    var v := Seqs.Take(Text.Digits(value), 4);
    assert Seqs.Take(v, 4) == v;
  }

  /** The `cvc` normaliser: the first (at most) three digits. */
  function FormatCvc(value: string): (r: string)
    ensures r <= Text.Digits(value)
    ensures |r| == if |Text.Digits(value)| < 3 then |Text.Digits(value)| else 3
    ensures forall i :: 0 <= i < |r| ==> Text.IsDigit(r[i])
  {
    Seqs.Take(Text.Digits(value), 3)
  }

  /** The value `handleChange` stores for an input named `name`. */
  function Normalise(name: string, value: string): (v: string)
    ensures name == "cardNumber" ==> v == FormatCardNumber(value)
    ensures name == "expiry" ==> v == FormatExpiry(value)
    ensures name == "cvc" ==> v == FormatCvc(value)
    ensures name !in {"cardNumber", "expiry", "cvc"} ==> v == value
  {
    if name == "cardNumber" then FormatCardNumber(value)
    else if name == "expiry" then FormatExpiry(value)
    else if name == "cvc" then FormatCvc(value)
    else value
  }

  /** `handleChange`: the edited field gets its normalised value; every other field is kept. */
  function HandleChange(form: Form, name: string, value: string): (r: Form)
    ensures r.Keys == form.Keys + {name}
    ensures r[name] == Normalise(name, value)
    ensures forall k :: k in form && k != name ==> r[k] == form[k]
  {
    form[name := Normalise(name, value)]
  }

  /** The test card number is already in the grouped shape, so retyping it changes nothing. */
  lemma MockCardNumberIsNormalised()
    ensures FormatCardNumber("4242 4242 4242 4242") == "4242 4242 4242 4242"
  {
    var kept := "4242424242424242";
    MockDigits();
    MockGrouped();
    CardNumberShape(kept);
    GroupedDigitsKept(kept, "4242 4242 4242 4242");
  }

  /** Re-formatting a grouped string of four to sixteen digits gives the same grouping. */
  lemma GroupedDigitsKept(kept: string, g: string)
    requires 4 <= |kept| <= 16 && g == Group4(kept) && Text.Digits(g) == kept
    ensures FormatCardNumber(g) == g
  {
    assert Seqs.Take(kept, 16) == kept;
  }

  lemma MockDigits()
    ensures forall i :: 0 <= i < |"4242424242424242"| ==> Text.IsDigit("4242424242424242"[i])
  {
  }

  lemma MockGrouped()
    ensures Group4("4242424242424242") == "4242 4242 4242 4242"
  {
    GroupBlock("4242", "4242");
    GroupBlock("4242", "42424242");
    GroupBlock("4242", "424242424242");
  }

  /** One block of four followed by a non-empty rest is the block, a space and the grouped rest. */
  lemma GroupBlock(p: string, q: string)
    requires |p| == 4 && q != []
    ensures Group4(p + q) == p + " " + Group4(q)
  {
    assert (p + q)[..4] == p;
    assert (p + q)[4..] == q;
  }

  /** The test expiry date is already normalised. */
  lemma MockExpiryIsNormalised()
    ensures FormatExpiry("12/28") == "12/28"
  {
    SlashedLiteral();
    ExpiryOfFourDigits("1228");
    ExpiryIdempotent("1228");
  }

  lemma SlashedLiteral()
    ensures "1228"[..2] + "/" + "1228"[2..] == "12/28"
  {
    assert "1228"[..2] == "12";
    assert "1228"[2..] == "28";
  }

  /** Four digits are shown as two, a slash and two. */
  lemma ExpiryOfFourDigits(v: string)
    requires |v| == 4 && forall i :: 0 <= i < |v| ==> Text.IsDigit(v[i])
    ensures FormatExpiry(v) == v[..2] + "/" + v[2..]
  {
    Text.DigitsOfDigits(v);
  }

  /** The test CVC is already normalised. */
  lemma MockCvcIsNormalised()
    ensures FormatCvc("123") == "123"
  {
    var v := "123";
    assert Text.IsDigit(v[0]) && Text.IsDigit(v[1]) && Text.IsDigit(v[2]);
    CvcOfDigits(v);
  }

  /** Three digits are kept as they are. */
  lemma CvcOfDigits(v: string)
    requires |v| == 3 && forall i :: 0 <= i < |v| ==> Text.IsDigit(v[i])
    ensures FormatCvc(v) == v
  {
    Text.DigitsOfDigits(v);
  }

  /** Which screen the payment page shows. */
  datatype Screen = SessionExpired | PaymentForm

  /** `if (!item || !total)`: no navigation state, no item, or a zero total shows "Session Expired". */
  function PaymentScreen(st: Option<PaymentState>): (s: Screen)
    ensures s == PaymentForm <==> st.Some? && st.value.item.Some? && st.value.total != 0
  {
    if st.None? || st.value.item.None? || st.value.total == 0 then SessionExpired else PaymentForm
  }
}
