/** The synthetic test data generator (user_data/fake_customers.py): twenty
    customers with deterministic IDs and emails, and every other column
    drawn at random from a listed set. The random generator is an oracle:
    `pick` supplies the raw draw behind each `np.random.choice` and
    `np.random.randint`, `uniform` the unit draw behind `np.random.uniform`. */
module FakeCustomers {
  import opened Digits

  const Count: nat := 20
  const IdWidth: nat := 4
  const IdSuffix: string := "-TEST"
  const EmailSuffix: string := "@telecommail.com"

  const Complaints: seq<string> := [
    "Frequent call drops and poor voice clarity",
    "Internet speed is too slow during peak hours",
    "Billing issue: charged twice this month",
    "Customer support didn’t resolve my issue",
    "Frequent disconnections in internet service",
    "Plan renewal failed despite payment",
    "Network coverage is poor in my area",
    "High latency during video streaming",
    "Unable to log in to customer portal",
    "Received incorrect bill amount"
  ]

  const Genders: seq<string> := ["Male", "Female"]
  const SeniorFlags: seq<int> := [0, 1]
  const YesNo: seq<string> := ["Yes", "No"]
  const PhoneLines: seq<string> := ["Yes", "No", "No phone service"]
  const InternetKinds: seq<string> := ["DSL", "Fiber optic", "No"]
  const InternetExtras: seq<string> := ["Yes", "No", "No internet service"]
  const Contracts: seq<string> := ["Month-to-month", "One year", "Two year"]
  const PaymentMethods: seq<string> :=
    ["Electronic check", "Mailed check", "Bank transfer (automatic)", "Credit card (automatic)"]

  type UnitDraw = u: real | 0.0 <= u < 1.0

  /** The seeded random generator, seen as the draws it makes for each
      column and row. */
  datatype Rng = Rng(pick: (string, nat) -> nat, uniform: (string, nat) -> UnitDraw)

  /** `np.random.choice(choices)` for one row of `column`. */
  function Choice<T>(choices: seq<T>, rng: Rng, column: string, row: nat): (v: T)
    requires |choices| > 0
    ensures v in choices
  {
    choices[rng.pick(column, row) % |choices|]
  }

  /** `np.random.randint(lo, hi)`: the upper bound is exclusive. */
  function RandInt(lo: int, hi: int, rng: Rng, column: string, row: nat): (v: int)
    requires lo < hi
    ensures lo <= v < hi
  {
    lo + rng.pick(column, row) % (hi - lo)
  }

  /** A unit draw stretched to `[0, width)`. */
  function Stretch(width: real, u: UnitDraw): (r: real)
    requires width > 0.0
    ensures 0.0 <= r < width
  {
    assert width - width * u == width * (1.0 - u);
    width * u
  }

  /** `np.random.uniform(lo, hi)`: a real in `[lo, hi)`. */
  function Uniform(lo: real, hi: real, rng: Rng, column: string, row: nat): (v: real)
    requires lo < hi
    ensures lo <= v < hi
  {
    lo + Stretch(hi - lo, rng.uniform(column, row))
  }

  // ---------------------------------------------------------------------
  // IDs and emails
  // ---------------------------------------------------------------------

  /** `f"{i:04d}-TEST"`. */
  function CustomerId(i: nat): (id: string)
    ensures |id| >= IdWidth + |IdSuffix|
    ensures AllDigits(id[..|id| - |IdSuffix|]) && DigitsValue(id[..|id| - |IdSuffix|]) == i
    ensures id[|id| - |IdSuffix|..] == IdSuffix
  {
    var digits := ZeroPad(i, IdWidth);
    assert (digits + IdSuffix)[..|digits|] == digits;
    digits + IdSuffix
  }

  /** Python's `str.lower` on one character, for the ASCII letters the IDs use. */
  function LowerChar(c: char): (l: char)
    ensures !('A' <= l <= 'Z')
    ensures !('A' <= c <= 'Z') ==> l == c
    ensures 'A' <= c <= 'Z' ==> 'a' <= l <= 'z' && l as int - 'a' as int == c as int - 'A' as int
  {
    if 'A' <= c <= 'Z' then (c as int - 'A' as int + 'a' as int) as char else c
  }

  function Lower(s: string): (r: string)
    ensures |r| == |s|
    ensures forall i :: 0 <= i < |s| ==> r[i] == LowerChar(s[i])
  {
    seq(|s|, i requires 0 <= i < |s| => LowerChar(s[i]))
  }

  /** Python's `s.replace(pat, "")`: every occurrence of `pat`, scanning left
      to right without overlap, is removed. */
  function RemoveAll(s: string, pat: string): (r: string)
    requires |pat| > 0
    ensures |r| <= |s|
    ensures pat[0] !in s ==> r == s
    decreases |s|
  {
    if |s| == 0 then ""
    else if pat <= s then RemoveAll(s[|pat|..], pat)
    else
      assert s == [s[0]] + s[1..];
      [s[0]] + RemoveAll(s[1..], pat)
  }

  /** A prefix that cannot start an occurrence of `pat` survives removal. */
  lemma {:induction false} RemoveAllKeepsPrefix(d: string, t: string, pat: string)
    requires |pat| > 0 && pat[0] !in d
    ensures RemoveAll(d + t, pat) == d + RemoveAll(t, pat)
    decreases |d|
  {
    if |d| > 0 {
      var s := d + t;
      assert s[0] == d[0] != pat[0];
      assert !(pat <= s);
      assert s[1..] == d[1..] + t;
      assert RemoveAll(s, pat) == [s[0]] + RemoveAll(s[1..], pat);
      RemoveAllKeepsPrefix(d[1..], t, pat);
      assert d == [d[0]] + d[1..];
    } else {
      assert d + t == t;
    }
  }

  /** The first occurrence of `pat` is removed, and the scan carries on
      after it: `RemoveAll(d + pat + t) == d + RemoveAll(t)` when `d` holds
      no start of `pat`. */
  lemma RemoveAllSkipsOccurrence(d: string, t: string, pat: string)
    requires |pat| > 0 && pat[0] !in d
    ensures RemoveAll(d + pat + t, pat) == d + RemoveAll(t, pat)
  {
    assert d + pat + t == d + (pat + t);
    RemoveAllKeepsPrefix(d, pat + t, pat);
    assert pat <= pat + t && (pat + t)[|pat|..] == t;
  }

  /** The email column: the ID lowercased, `-test` removed, and the mail
      domain appended. */
  function EmailFor(id: string): (email: string)
    ensures |email| >= |EmailSuffix| && email[|email| - |EmailSuffix|..] == EmailSuffix
  {
    RemoveAll(Lower(id), "-test") + EmailSuffix
  }

  /** Lowercasing leaves digits alone and turns the ID suffix into `-test`. */
  lemma LowerIdText(digits: string)
    requires AllDigits(digits)
    ensures Lower(digits + IdSuffix) == digits + "-test"
  {
    var lowered := Lower(digits + IdSuffix);
    forall k | 0 <= k < |digits|
      ensures lowered[k] == digits[k]
    {
      assert IsDigit(digits[k]);
    }
  }

  /** The email of the `i`-th ID is its zero-padded number at the mail
      domain: `0001-TEST` becomes `0001@telecommail.com`. */
  lemma EmailOfId(i: nat)
    ensures EmailFor(CustomerId(i)) == ZeroPad(i, IdWidth) + EmailSuffix
  {
    var digits := ZeroPad(i, IdWidth);
    LowerIdText(digits);
    assert '-' !in digits by {
      forall k | 0 <= k < |digits| ensures digits[k] != '-' { assert IsDigit(digits[k]); }
    }
    RemoveAllSkipsOccurrence(digits, "", "-test");
    assert digits + "-test" + "" == digits + "-test";
  }

  lemma PadOne()
    ensures ZeroPad(1, IdWidth) == "0001"
  {
    assert NatToText(1) == "1";
    assert Zeros(3) == "000";
  }

  /** The first generated ID. */
  lemma IdExample()
    ensures CustomerId(1) == "0001-TEST"
  {
    PadOne();
    assert CustomerId(1) == ZeroPad(1, IdWidth) + IdSuffix;
  }

  /** The email derived from the first generated ID. */
  lemma EmailExample()
    ensures EmailFor(CustomerId(1)) == "0001" + EmailSuffix
  {
    EmailOfId(1);
    PadOne();
  }

  /** IDs 1..20 are all nine characters long. */
  lemma IdLength(i: nat)
    requires 1 <= i <= Count
    ensures |CustomerId(i)| == 9
  {
    ZeroPadWidth(i, IdWidth);
  }

  /** Different numbers give different IDs, and different emails. */
  lemma IdsAndEmailsDistinct(i: nat, j: nat)
    requires 1 <= i <= Count && 1 <= j <= Count && i != j
    ensures CustomerId(i) != CustomerId(j)
    ensures EmailFor(CustomerId(i)) != EmailFor(CustomerId(j))
  {
    ZeroPadWidth(i, IdWidth);
    ZeroPadWidth(j, IdWidth);
    EmailOfId(i);
    EmailOfId(j);
    var a := ZeroPad(i, IdWidth) + EmailSuffix;
    var b := ZeroPad(j, IdWidth) + EmailSuffix;
    assert a[..IdWidth] == ZeroPad(i, IdWidth);
    assert b[..IdWidth] == ZeroPad(j, IdWidth);
  }

  // ---------------------------------------------------------------------
  // The generated table
  // ---------------------------------------------------------------------

  datatype FakeCustomer = FakeCustomer(
    customerID: string,
    gender: string,
    seniorCitizen: int,
    partner: string,
    dependents: string,
    tenure: int,
    phoneService: string,
    multipleLines: string,
    internetService: string,
    onlineSecurity: string,
    onlineBackup: string,
    deviceProtection: string,
    techSupport: string,
    streamingTV: string,
    streamingMovies: string,
    contract: string,
    paperlessBilling: string,
    paymentMethod: string,
    monthlyCharges: real,
    totalCharges: real,
    email: string,
    complaint: string)

  /** Every drawn column holds a value of its listed set or range. */
  predicate WellDrawn(c: FakeCustomer) {
    && c.gender in Genders
    && c.seniorCitizen in SeniorFlags
    && c.partner in YesNo
    && c.dependents in YesNo
    && 1 <= c.tenure <= 71
    && c.phoneService in YesNo
    && c.multipleLines in PhoneLines
    && c.internetService in InternetKinds
    && c.onlineSecurity in InternetExtras
    && c.onlineBackup in InternetExtras
    && c.deviceProtection in InternetExtras
    && c.techSupport in InternetExtras
    && c.streamingTV in InternetExtras
    && c.streamingMovies in InternetExtras
    && c.contract in Contracts
    && c.paperlessBilling in YesNo
    && c.paymentMethod in PaymentMethods
    && 20.0 <= c.monthlyCharges < 120.0
    && 100.0 <= c.totalCharges < 8000.0
    && c.complaint in Complaints
  }

  /** Row `row` (0-based) of the generated table. */
  function FakeRow(rng: Rng, row: nat): (c: FakeCustomer)
    ensures WellDrawn(c)
    ensures c.customerID == CustomerId(row + 1) && c.email == EmailFor(c.customerID)
  {
    var id := CustomerId(row + 1);
    FakeCustomer(
      id,
      Choice(Genders, rng, "gender", row),
      Choice(SeniorFlags, rng, "SeniorCitizen", row),
      Choice(YesNo, rng, "Partner", row),
      Choice(YesNo, rng, "Dependents", row),
      RandInt(1, 72, rng, "tenure", row),
      Choice(YesNo, rng, "PhoneService", row),
      Choice(PhoneLines, rng, "MultipleLines", row),
      Choice(InternetKinds, rng, "InternetService", row),
      Choice(InternetExtras, rng, "OnlineSecurity", row),
      Choice(InternetExtras, rng, "OnlineBackup", row),
      Choice(InternetExtras, rng, "DeviceProtection", row),
      Choice(InternetExtras, rng, "TechSupport", row),
      Choice(InternetExtras, rng, "StreamingTV", row),
      Choice(InternetExtras, rng, "StreamingMovies", row),
      Choice(Contracts, rng, "Contract", row),
      Choice(YesNo, rng, "PaperlessBilling", row),
      Choice(PaymentMethods, rng, "PaymentMethod", row),
      Uniform(20.0, 120.0, rng, "MonthlyCharges", row),
      Uniform(100.0, 8000.0, rng, "TotalCharges", row),
      EmailFor(id),
      Choice(Complaints, rng, "complaint", row))
  }

  /** user_data/fake_customers.py:22-52. Twenty rows; row `r` has ID number
      `r + 1`, the email derived from that ID, and drawn values only. */
  function GenerateTestData(rng: Rng): (rows: seq<FakeCustomer>)
    ensures |rows| == Count
    ensures forall r :: 0 <= r < |rows| ==> WellDrawn(rows[r])
    ensures forall r :: 0 <= r < |rows| ==> rows[r].customerID == CustomerId(r + 1)
    ensures forall r :: 0 <= r < |rows| ==> rows[r].email == EmailFor(rows[r].customerID)
  {
    seq(Count, r requires 0 <= r < Count => FakeRow(rng, r))
  }

  /** Row `r`'s email is `r + 1` zero-padded to four digits at the mail domain. */
  lemma GeneratedEmails(rng: Rng)
    ensures var rows := GenerateTestData(rng);
      forall r :: 0 <= r < |rows| ==> rows[r].email == ZeroPad(r + 1, IdWidth) + EmailSuffix
  {
    var rows := GenerateTestData(rng);
    forall r | 0 <= r < |rows|
      ensures rows[r].email == ZeroPad(r + 1, IdWidth) + EmailSuffix
    {
      EmailOfId(r + 1);
    }
  }

  /** The generated IDs are pairwise distinct, and so are the emails. */
  lemma GeneratedKeysDistinct(rng: Rng)
    ensures var rows := GenerateTestData(rng);
      forall a, b :: 0 <= a < b < |rows| ==>
        rows[a].customerID != rows[b].customerID && rows[a].email != rows[b].email
  {
    NumberedKeysDistinct(GenerateTestData(rng));
  }

  /** Rows numbered 1..20 in order, with emails derived from their IDs,
      have distinct IDs and distinct emails. */
  lemma NumberedKeysDistinct(rows: seq<FakeCustomer>)
    requires |rows| == Count
    requires forall r :: 0 <= r < |rows| ==> rows[r].customerID == CustomerId(r + 1)
    requires forall r :: 0 <= r < |rows| ==> rows[r].email == EmailFor(rows[r].customerID)
    ensures forall a, b :: 0 <= a < b < |rows| ==>
      rows[a].customerID != rows[b].customerID && rows[a].email != rows[b].email
  {
    forall a, b | 0 <= a < b < |rows|
      ensures rows[a].customerID != rows[b].customerID && rows[a].email != rows[b].email
    {
      IdsAndEmailsDistinct(a + 1, b + 1);
    }
  }
}
