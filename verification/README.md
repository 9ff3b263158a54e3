# Telecom customer health dashboard — a Dafny model of its scoring core

The dashboard reads an uploaded customer table, scores each customer's
health, and presents the five riskiest customers for email outreach.
The health score is one minus the churn probability that a trained
classifier gives. The model covers:

- `predict_health_scores`:
  - `TotalCharges` is coerced to a number, and anything unreadable becomes 0.
  - The `customerID` and `Churn` columns are dropped from the features.
  - Each row is scored with `1 - p`.
  - The rows are sorted by ascending score and ranked `1..N`.
  - Each row gets a tier from `pd.cut` with bins `(-0.01, 0.3]`, `(0.3, 0.7]` and `(0.7, 1.0]`, labelled High Risk, Medium Risk and Healthy.
- The top-five selection that the dashboard makes from that result.
- The local decisions of `send_email`: the configuration guard, the message headers, and reading the port number.
- The synthetic test-data generator: twenty customers with IDs `0001-TEST` … `0020-TEST`, emails `0001@telecommail.com` …, and every other column drawn from a fixed set or range.

The trained classifier is a parameter. It is any function from a row's
`(column, value)` feature vector to a probability in `[0, 1]`. The SMTP
session is also a parameter: a function that says whether the relay
accepted a message. The random generator behind `np.random` is an oracle
of raw draws, one per column and row.

Modules:

- `Wrappers` — `Option`.
- `Digits` — decimal digit strings, `str(n)` and zero padding.
- `Numeric` — the text-to-number readings `pd.to_numeric` and `int(...)`.
- `Frame` — the table, the `TotalCharges` coercion and feature selection.
- `Sorting` — sort-by-key, top-k, and independence from the order of ties.
- `RiskTiers` — `pd.cut`.
- `HealthScores` — `predict_health_scores` and the top five.
- `Mailer` — `send_email`.
- `FakeCustomers` — the generator.

## Model

| member | source | states |
|---|---|---|
| Digits.NatToText | user_data/fake_customers.py:23 | `str(n)` reads back as `n`, has a leading zero only for 0, and has no superfluous digits |
| Digits.ZeroPad | user_data/fake_customers.py:23 | `{i:04d}` is all digits, reads back as `i`, is `max(width, digits of i)` long, and any padding is zeros |
| Digits.ZeroPadWidth | user_data/fake_customers.py:23 | a number below `10^width` pads to exactly `width` characters |
| Digits.ZeroPadInjective | user_data/fake_customers.py:23 | equal padded texts come from equal numbers |
| Numeric.ParseUnsigned | streamlit_app.py:30 | an accepted unsigned numeral has only digits and points, has at least one digit, and is non-negative |
| Numeric.ParseUnsignedAccepts | streamlit_app.py:30 | the unsigned reading succeeds exactly on `digits` or `digits.digits` with a digit on at least one side |
| Numeric.ParseDecimal | streamlit_app.py:30 | every text that `to_numeric` reads is made of numeral characters and holds a digit |
| Numeric.ParseDecimalAccepts | streamlit_app.py:30 | `to_numeric` reads a text exactly when it is an optional sign followed by an unsigned numeral; everything else, `1.2.3` or `+-5` included, is rejected |
| Numeric.DecimalTextParses | streamlit_app.py:30 | `whole.frac` reads as `whole + frac / 10^|frac|` |
| Numeric.DigitTextParses | streamlit_app.py:30 | any non-empty run of digits, leading zeros included, reads as its base-ten value |
| Numeric.IntegerTextParses | streamlit_app.py:30 | the decimal text of any natural number reads back as that number |
| Numeric.NegatedTextParses | streamlit_app.py:30 | a leading `-` negates the value of an unsigned numeral |
| Numeric.PlusTextParses | streamlit_app.py:30 | a leading `+` keeps the value of an unsigned numeral |
| Numeric.ParseInteger | streamlit_app.py:129 | `int(port)` succeeds exactly on an optional sign followed by at least one digit, and returns the base-ten value of the digits, negated after a `-` |
| Numeric.PortWithLeadingZeros | streamlit_app.py:129 | the port setting `0587` reads as 587 |
| Numeric.IntegerTextRoundTrip | streamlit_app.py:129 | `int(str(n)) == n` |
| Frame.ToNumericOrZero | streamlit_app.py:30 | numbers stay, NaN becomes 0, text that does not read as a numeral becomes 0, and a readable numeral becomes its value |
| Frame.CoerceDecimalText | streamlit_app.py:30 | a `whole.frac` cell coerces to its decimal value |
| Frame.CoercionExampleDecimal | streamlit_app.py:30 | the cell `"29.85"` becomes 29.85 |
| Frame.CoercionExampleBlank | streamlit_app.py:30 | the blank cell `" "` becomes 0 |
| Frame.CoercionExampleMalformed | streamlit_app.py:30 | the cell `"1.2.3"`, numeral characters in no numeral's order, becomes 0 |
| Frame.CoerceCells | streamlit_app.py:30 | in one row, the `TotalCharges` cell becomes a number and every other cell is unchanged |
| Frame.CoerceTotalCharges | streamlit_app.py:29-30 | only the `TotalCharges` cells change, each to its coerced number; columns, row count and shape are kept; without that column the frame is unchanged |
| Frame.CoerceTotalChargesIdempotent | streamlit_app.py:29-30 | coercing twice is the same as coercing once |
| Frame.KeptPositions | streamlit_app.py:38 | the kept positions are in range, strictly increasing, and never name `customerID` or `Churn` |
| Frame.KeptPositionsComplete | streamlit_app.py:38 | every position whose name is not dropped is kept |
| Frame.FeatureColumns | streamlit_app.py:37-38 | the feature names are the frame's names at the kept positions, in frame order |
| Frame.FeatureColumnsExact | streamlit_app.py:38 | a name is a feature exactly when the frame has it and it is neither `customerID` nor `Churn` |
| Frame.FeatureVector | streamlit_app.py:37-40 | each feature entry pairs a feature name with that row's cell in the same column |
| Frame.DropAbsentIsNoOp | streamlit_app.py:38 | without `customerID` and `Churn`, the features are the whole row in column order |
| Sorting.InsertBy | streamlit_app.py:43 | inserting into a sorted sequence adds exactly one element and keeps it sorted |
| Sorting.SortBy | streamlit_app.py:43 | `sort_values` returns a permutation of the rows in non-decreasing key order |
| Sorting.SortedPermutationsShareKeys | streamlit_app.py:43 | two sorted permutations of the same rows agree on the key at every position, whatever they do with ties |
| Sorting.StrictMinimumFirst | streamlit_app.py:43 | a row whose key is strictly below every other row's key comes first in any sorted permutation |
| Sorting.SmallestBy | streamlit_app.py:157 | `sort_values(...).head(n)` gives `min(n, N)` rows of the input in sorted order, none with a larger key than a row left out |
| Sorting.SmallestOfSortedKeys | streamlit_app.py:157 | selecting from an already sorted sequence keeps its leading keys |
| RiskTiers.BinIndexFrom | streamlit_app.py:45-49 | the right-closed bin holding `x` is found exactly when `x` lies above the first edge and at or below the last |
| RiskTiers.BinIndex | streamlit_app.py:45-49 | `pd.cut` puts `x` in bin `i` with `edges[i] < x <= edges[i+1]`, and gives no bin outside `(first, last]` |
| RiskTiers.BinIndexMonotone | streamlit_app.py:45-49 | a larger value never lands in an earlier bin |
| RiskTiers.RiskLevelOf | streamlit_app.py:45-49 | High Risk iff `-0.01 < s <= 0.3`, Medium Risk iff `0.3 < s <= 0.7`, Healthy iff `0.7 < s <= 1.0`, and NaN otherwise |
| RiskTiers.RiskLevelMonotone | streamlit_app.py:45-49 | a higher score never gets a worse tier |
| RiskTiers.UnitScoresHaveTier | streamlit_app.py:45-49 | every score in `[0, 1]` gets a tier |
| HealthScores.HealthScore | streamlit_app.py:41 | the health score lies in `[0, 1]` and adds up to 1 with the churn probability |
| HealthScores.ScoreRows | streamlit_app.py:37-41 | every row keeps its cells and gets a score in `[0, 1]` that complements the classifier's probability for its feature vector |
| HealthScores.AssignRanks | streamlit_app.py:44-49 | row `i` gets rank `i + 1` and the tier of its score; its cells and score are kept |
| HealthScores.UnrankAssignRanks | streamlit_app.py:44-49 | removing `Rank` and `Risk_Level` again gives back the sorted rows |
| HealthScores.RankByHealth | streamlit_app.py:43-49 | the ranked rows are a permutation of the scored rows, sorted by score, ranked by position and tiered by score |
| HealthScores.RankByHealthBounded | streamlit_app.py:41-43 | scores in `[0, 1]` are still in `[0, 1]` after sorting |
| HealthScores.PredictHealthScores | streamlit_app.py:28-50 | the result keeps the columns and row count, is a permutation of the coerced and scored rows sorted by ascending score, and row `i` has rank `i + 1` and the tier of its score |
| HealthScores.RanksAreOneToN | streamlit_app.py:44 | the `Rank` column is exactly `1, 2, …, N` |
| HealthScores.TiersNeverDecrease | streamlit_app.py:45-49 | every row has a tier, and the High Risk rows come first, then Medium Risk, then Healthy |
| HealthScores.TieOrderIrrelevant | streamlit_app.py:43-49 | any order of tied rows gives the same `health_score`, `Rank` and `Risk_Level` columns |
| HealthScores.WorstCustomerRanksFirst | streamlit_app.py:40-44 | the customer rated strictly most likely to churn gets rank 1 and score `1 - p` |
| HealthScores.SingleAtRiskCustomer | streamlit_app.py:40-49 | with one customer at churn probability 0.9 and the rest at 0.1, that customer is first and High Risk at 0.1, and every other row is Healthy |
| HealthScores.TopFive | streamlit_app.py:157 | the top five are `min(5, N)` result rows in ascending score order, none healthier than a row left out |
| HealthScores.TopFiveScores | streamlit_app.py:157 | re-sorting the already sorted result keeps its score column, so the top five carry the five lowest scores in order |
| HealthScores.TopFiveDistinct | streamlit_app.py:157 | the top five are five different rows |
| Mailer.SubjectFor | streamlit_app.py:125 | the Subject header is the fixed prefix, then the address it is given, then `)` |
| Mailer.SubjectForInjective | streamlit_app.py:125 | different addresses give different Subject headers |
| Mailer.SendWithSubject | streamlit_app.py:112-136 | without all five settings nothing is built; an unreadable port fails before connecting; otherwise the message is handed to the relay and the return value is the relay's answer |
| Mailer.SendEmail | streamlit_app.py:108-136 | as `SendWithSubject`, with From set to the sender setting, To set to the address, the Subject built from the address, and an HTML body |
| Mailer.UnconfiguredNeverSends | streamlit_app.py:118-120 | with any setting unset or empty, the relay is never reached and the result is false |
| Mailer.ReturnedMeansAccepted | streamlit_app.py:128-136 | a true return means the settings were complete and the relay accepted the message |
| Mailer.SubjectArgumentIgnored | streamlit_app.py:108-125 | the `subject` argument has no effect on anything `send_email` does |
| Mailer.CustomerIdSubjectLost | streamlit_app.py:180-183 | a Subject that names the customer ID never goes out when the ID differs from the email address |
| Mailer.FirstTestCustomerSubject | streamlit_app.py:180-183 | customer `0001-TEST`, mailed at `0001@telecommail.com`, receives a Subject that names the address and not the ID |
| Mailer.SendEmailIntended | streamlit_app.py:108-136 | as `SendEmail`, but the Subject header is the `subject` argument |
| Mailer.SendToCustomer | streamlit_app.py:180-183 | with the corrected sender (see Findings), a message is handed to the relay exactly when the settings are complete and the port reads; it is addressed to the customer's email and its Subject names their ID |
| FakeCustomers.Choice | user_data/fake_customers.py:24 | `np.random.choice` returns a member of its list |
| FakeCustomers.RandInt | user_data/fake_customers.py:28 | `randint(lo, hi)` lies in `[lo, hi)` |
| FakeCustomers.Uniform | user_data/fake_customers.py:44-45 | `uniform(lo, hi)` lies in `[lo, hi)` |
| FakeCustomers.CustomerId | user_data/fake_customers.py:23 | the ID is the number as digits, at least four of them, followed by `-TEST` |
| FakeCustomers.LowerChar | user_data/fake_customers.py:50 | an upper-case letter becomes the lower-case letter at the same place in the alphabet; anything else is unchanged |
| FakeCustomers.Lower | user_data/fake_customers.py:50 | lower-casing is character by character and keeps the length |
| FakeCustomers.RemoveAll | user_data/fake_customers.py:50 | removing a pattern never lengthens the text, and a text that holds no start of the pattern is unchanged |
| FakeCustomers.RemoveAllKeepsPrefix | user_data/fake_customers.py:50 | a prefix that cannot start the pattern survives `replace` |
| FakeCustomers.RemoveAllSkipsOccurrence | user_data/fake_customers.py:50 | an occurrence of the pattern after such a prefix is removed, and removal carries on after it |
| FakeCustomers.EmailFor | user_data/fake_customers.py:49-51 | every email ends with `@telecommail.com` |
| FakeCustomers.EmailOfId | user_data/fake_customers.py:49-51 | the email of ID `i` is `i` zero-padded to four digits, at the mail domain |
| FakeCustomers.IdExample | user_data/fake_customers.py:23 | the first ID is `0001-TEST` |
| FakeCustomers.EmailExample | user_data/fake_customers.py:49-51 | the first email is `0001@telecommail.com` |
| FakeCustomers.IdLength | user_data/fake_customers.py:23 | IDs 1 to 20 are nine characters long |
| FakeCustomers.IdsAndEmailsDistinct | user_data/fake_customers.py:23-51 | different numbers in 1 to 20 give different IDs and different emails |
| FakeCustomers.FakeRow | user_data/fake_customers.py:22-52 | a generated row has every drawn column in its listed set or range, and its ID and email derive from its position |
| FakeCustomers.GenerateTestData | user_data/fake_customers.py:22-52 | twenty rows; row `r` has ID `r + 1`, the email derived from that ID, and drawn values only |
| FakeCustomers.GeneratedEmails | user_data/fake_customers.py:49-51 | row `r` has the email `{r+1:04d}@telecommail.com` |
| FakeCustomers.GeneratedKeysDistinct | user_data/fake_customers.py:22-52 | the generated IDs are pairwise distinct, and so are the generated emails |
| FakeCustomers.NumberedKeysDistinct | user_data/fake_customers.py:23-51 | rows numbered 1 to 20 with derived emails have distinct IDs and distinct emails |

## Left out

- Streamlit UI, file upload, CSV reading and writing, `joblib` loading, and the Gemini call (`generate_email`, streamlit_app.py:55-103). These are I/O or foreign calls. The classifier and the SMTP relay are parameters instead.
- The email-generation loop and the per-customer send buttons (streamlit_app.py:165-186). These are UI session state. The send they trigger is `Mailer.SendEmail(env, email, SubjectFor(customerId), body, relay)`, which drops that Subject (see `CustomerIdSubjectLost`). `Mailer.SendToCustomer` is the corrected call.
- The `ids` series (streamlit_app.py:32-35). It is computed and never used.
- Columns named `health_score`, `Rank` or `Risk_Level` that already exist in the upload. The model assumes the frame does not hold them, because pandas would overwrite them in place.
- Floating point. Scores and charges are exact reals. `1 - p` and the bin comparisons have no rounding.
- Frame.ToNumericOrZero: it reads an optional sign followed by `digits`, `digits.`, `.digits` or `digits.digits`. It does not accept the surrounding whitespace, exponents and `inf`/`nan` words that `pd.to_numeric` reads. Such text becomes 0 here.
- Numeric.ParseDecimal: its own contract states only that accepted text looks numeric. Which texts it accepts is given by `ParseDecimalAccepts`. Their values are given by `DigitTextParses`, `DecimalTextParses`, `NegatedTextParses` and `PlusTextParses`.
- Numeric.ParseUnsigned: its own contract gives only the shape and sign of what it accepts. `ParseUnsignedAccepts`, `DigitTextParses` and `DecimalTextParses` give the rest.
- Numeric.ParseInteger: Python's `int` also accepts surrounding whitespace and `_` digit separators. These are not modelled.
- FakeCustomers.LowerChar: only ASCII letters are lower-cased. The IDs hold nothing else.
- The NumPy Mersenne-Twister stream and its seed 41. Draws come from the `Rng` oracle, so the specific values of a seeded run are not modelled, only their ranges.
- Writing `test_customers.csv` and reading it back. The model keeps the generated rows in memory.
- Sort stability. pandas' default `sort_values` is not stable, so the model promises only a sorted permutation. `TieOrderIrrelevant` shows that the visible columns do not depend on how ties are ordered.
- Classifier failures. The model assumes that the classifier accepts every feature row, including a table with no rows. `model.predict_proba` (streamlit_app.py:40) is a foreign call. It raises out of `predict_health_scores` when the table is empty or has columns the model was not fitted with. The generator's own `email` and `complaint` columns (user_data/fake_customers.py:49-52) are kept as features, so they can cause this. In the model, `PredictHealthScores` always returns a result.
- The n8n webhook, automatic sending and the "already contacted" flag. No part of the scoring core or the generator implements them.

## Findings

| source | as written | input that shows it | evidently intended | confidence | as-written member | corrected member |
|---|---|---|---|---|---|---|
| streamlit_app.py:125, 180-183 | `send_email` ignores its `subject` argument and fills the header's "Customer ID:" slot with the recipient's email address | customer `0001-TEST` at `0001@telecommail.com`: the caller passes "…(Customer ID: 0001-TEST)" but the header reads "…(Customer ID: 0001@telecommail.com)" | the Subject is the caller's `subject`, which names the customer ID | medium, not executed | Mailer.SendEmail, Mailer.CustomerIdSubjectLost, Mailer.FirstTestCustomerSubject | Mailer.SendEmailIntended, Mailer.SendToCustomer |
