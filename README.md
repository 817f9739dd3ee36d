# Performance-curve engine, modelled in Dafny

This project models the computational core of a cycling and running
performance-curve web application. From a few field tests the application
fits closed-form models of power (cycling) or distance (running) against
duration, chooses one model per duration or distance, and derives from the
fitted parameters predictions, athlete scores and profiles, rarity tiers,
training zones, chart series and the tables of the PDF reports. Around it sit
three small validators: the PDF lead form, the USDT wallet address, and the
table of referral statistics by level.

The models are over Dafny `real`. `Math.exp`, `Math.log` and `Math.sqrt` are
a value `RealMath.Transcendentals` passed to every member that needs them,
and `RealMath.Lawful` states what is assumed of them: `exp` is positive and
strictly increasing, turns sums into products, and `log` inverts it on the
positive reals. `Math.pow(x, y)` is `exp(y * log x)`, `Math.round(x)` is
`floor(x + 1/2)`, and `toFixed` is modelled digit by digit. A NaN that the
code branches on is an `Option`. Where the code keeps state (the fitters'
regression sums, the bisection of the power calculator, the chart series,
the report table, the lead form) the model is a method with loop invariants
or a class, proved against the functions that state what it computes.

Modules, one per source file of the core, and shared ones:

- `Wrappers`, `RealMath`, `Text`: options, real-number facts and the
  transcendental assumptions, and string helpers (trim, integer and decimal
  display, `toFixed`).
- `LogLogRegression`: the least-squares line of log power (or speed) on log
  duration, shared by both fitters.
- `PowerFit` (`src/utils/powerPrecisionCalculations.ts`), `RunningFit`
  (`src/utils/precisionCalculations.ts`): the fitters and their display
  helpers; `Clock` holds the running displays (`m:ss`, `h:mm:ss`,
  "Hh Mm Ss").
- `AthleteCard`, `RunningAthlete`, `ZScore`, `Rarity`: scores, ratings, tiers
  and the z-score profile classifier.
- `PowerCalculator`, `PerformanceCalculator`, `RunningCurves`,
  `PowerSustainable`, `RunningSustainable`, `PdfReport`, `RunningPdfReport`,
  `PowerZones`, `RunningZones`, `ModelParameters`, `PhysiologicalProfile`,
  `RunningPhysiologicalProfile`, `PowerChart`, `RunningChart`: the
  components that evaluate the fitted models.
- `PdfLeadForm`, `Wallet`, `LevelStats`: the validators and the level table.

I/O is not modelled: the fitters' inputs, the body weight, the outcome of the
PDF generation and the fetched statistics rows are parameters.

## Model

| member | source | states |
|---|---|---|
| PowerFit.Invalid | src/utils/powerPrecisionCalculations.ts:66-118 | a refused fit is not valid, names its reason, echoes Pmax and has 0 in every other number |
| PowerFit.CpWPrimeExact | src/utils/powerPrecisionCalculations.ts:91-92 | the CP-W′ model through the two maximal efforts gives exactly their powers at their durations |
| PowerFit.WPrimeFactored | src/utils/powerPrecisionCalculations.ts:91 | W′ is the power gap over the time gap times the product of the durations |
| PowerFit.WPrimePositive | src/utils/powerPrecisionCalculations.ts:91 | positive durations in order and powers in order give W′ > 0 |
| PowerFit.AprK | src/utils/powerPrecisionCalculations.ts:123-131 | the decay constant k always lies in [0.015, 0.05] |
| PowerFit.RegressionPoints | src/utils/powerPrecisionCalculations.ts:137-147 | the severe point, then the threshold point, then the long point exactly when that test is on, below the threshold power and longer than the threshold duration |
| PowerFit.FirstFailure | src/utils/powerPrecisionCalculations.ts:66-177 | when no check fails the severe effort is the shorter one |
| PowerFit.AcceptedDenominator | src/utils/powerPrecisionCalculations.ts:164-177 | inputs that pass every check have a non-zero regression denominator |
| PowerFit.FitPowerModels | src/utils/powerPrecisionCalculations.ts:45-215 | the fitter, with the regression sums accumulated by a loop over the points, returns the model of the closed-form definition |
| PowerFit.FitResultShape | src/utils/powerPrecisionCalculations.ts:66-213 | every result echoes Pmax; it is valid exactly when it names no reason; a refused one zeroes every other number |
| PowerFit.FitErrorPrecedence | src/utils/powerPrecisionCalculations.ts:66-177 | the checks run in order (power order, time order, CP or W′ not positive, Pmax not above P3min, collinear points): the reason is the first failing check, and each reason is given exactly when every earlier check passes and its own fails |
| PowerFit.FitAccepted | src/utils/powerPrecisionCalculations.ts:88-213 | an accepted fit passed every check and carries CP > 0, W′ > 0, P3min below Pmax, the regression power law and the LT1 band |
| PowerFit.SevereTimePositive | src/utils/powerPrecisionCalculations.ts:78-96 | with a positive threshold duration, a positive W′ implies a positive severe duration |
| PowerFit.FitTestOrder | src/utils/powerPrecisionCalculations.ts:66-96 | an accepted fit had positive durations and powers, the severe effort shorter and harder |
| PowerFit.FitExactAtTests | src/utils/powerPrecisionCalculations.ts:88-96 | an accepted fit has CP, W′ > 0 and its CP-W′ curve passes through both maximal efforts |
| PowerFit.ThresholdPowerPositive | src/utils/powerPrecisionCalculations.ts:91-96 | CP > 0 forces a positive threshold power |
| PowerFit.FitAprShape | src/utils/powerPrecisionCalculations.ts:109-122 | an accepted fit has po3min = CP + W′/180, apr = Pmax − po3min > 0, vo2max power = po3min and CP power = CP |
| PowerFit.RatioInUnitInterval | src/utils/powerPrecisionCalculations.ts:127-129 | the short-test ratio lies in (0, 1) exactly when the short power lies strictly between po3min and Pmax |
| PowerFit.FitDecayConstant | src/utils/powerPrecisionCalculations.ts:123-131 | k is 0.026 unless the short test is on and its power lies strictly between po3min and Pmax, then the clamped −ln(ratio)/shortTime; always in [0.015, 0.05] |
| PowerFit.AprKCases | src/utils/powerPrecisionCalculations.ts:122-131 | for a positive amplitude, k is 0.026 unless the short test is on and its power lies strictly between po3min and po3min + apr; then, for a non-zero short time, it is −ln(ratio)/shortTime clamped to [0.015, 0.05] |
| PowerFit.FitRegressionPoints | src/utils/powerPrecisionCalculations.ts:137-147 | an accepted fit regresses on 2 or 3 points with positive values, durations strictly rising and powers strictly falling |
| PowerFit.PowerLawLeastSquares | src/utils/powerPrecisionCalculations.ts:164-185 | S is exp of the intercept, and E − 1 with the intercept solves the normal equations of the sums |
| PowerFit.FitPowerLawLeastSquares | src/utils/powerPrecisionCalculations.ts:152-185 | the power law of an accepted fit is the least-squares line of ln P on ln t over its regression points |
| PowerFit.TwoPointPowerLaw | src/utils/powerPrecisionCalculations.ts:152-185 | the power law fitted to two points passes through both |
| PowerFit.PowerLawOfAt | src/utils/powerPrecisionCalculations.ts:180-185 | a point on the regression line is on the curve S·t^(E−1) |
| PowerFit.PowerLawOfAtBoth | src/utils/powerPrecisionCalculations.ts:180-185 | the same for two points |
| PowerFit.FitPowerLawThroughTests | src/utils/powerPrecisionCalculations.ts:137-185 | without the long point the fitted power law gives exactly both maximal efforts |
| PowerFit.PowerLawThroughTests | src/utils/powerPrecisionCalculations.ts:137-185 | the power law over the two maximal efforts passes through both |
| PowerFit.PowerLawAt | src/utils/powerPrecisionCalculations.ts:184-185 | a power law with S = e^b and E = a + 1 passes through every point (t, p) on the line ln p = a ln t + b |
| PowerFit.FitLt1Band | src/utils/powerPrecisionCalculations.ts:193-199 | the LT1 band is 72 %, 75 % and 80 % of CP + W′/1800, so 0 < min < estimate < max |
| PowerFit.FitConsistent | src/utils/powerPrecisionCalculations.ts:45-215 | every fitter result satisfies the invariants the evaluators rely on |
| PowerFit.AprDecreasing | src/components/PowerPerformanceCalculator.tsx:46-55 | the APR curve of an accepted fit falls strictly with duration |
| PowerFit.ExpDecayDecreasing | src/components/PowerPerformanceCalculator.tsx:46-55 | po3min + apr·e^(−kt) falls strictly for positive apr and k |
| PowerFit.AprBetween | src/components/PowerPerformanceCalculator.tsx:46-55 | at positive durations the APR curve lies strictly between po3min and Pmax |
| PowerFit.CpwDecreasing | src/components/PowerPerformanceCalculator.tsx:58-60 | the CP-W′ curve falls strictly with positive duration and stays above CP |
| PowerFit.FormatPower | src/utils/powerPrecisionCalculations.ts:30 | the power display ends in " W" |
| PowerFit.FormatPowerReads | src/utils/powerPrecisionCalculations.ts:30 | the power display reads back as the watts rounded to a whole number followed by " W", after a minus sign when that number is negative |
| PowerFit.ParseSingle | src/utils/powerPrecisionCalculations.ts:31-42 | a number with unit s, m or h reads back as that many seconds, minutes or hours |
| PowerFit.ParsePair | src/utils/powerPrecisionCalculations.ts:31-42 | "Mm Ss" and "Hh Mm" read back as their total in seconds |
| PowerFit.FormatDurationUnderAnHour | src/utils/powerPrecisionCalculations.ts:31-38 | below one hour the duration display reads back as the rounded seconds |
| PowerFit.FormatSecondsUnderAnHour | src/utils/powerPrecisionCalculations.ts:32-38 | the same for a whole number of seconds |
| PowerFit.FormatDurationSixtyMinutes | src/utils/powerPrecisionCalculations.ts:39-41 | as written, 7170 s is shown as "1h 60m" (see Findings) |
| PowerFit.SixtyMinutesShown | src/utils/powerPrecisionCalculations.ts:39-41 | the hour branch yields 1 h and 60 min for 7170 s |
| PowerFit.FormatDurationCorrectedNearest | src/utils/powerPrecisionCalculations.ts:39-41 | the corrected hour display reads back as whole minutes within 30 s of the rounded duration |
| PowerFit.MinutesNearest | src/utils/powerPrecisionCalculations.ts:39-41 | the same for a whole number of seconds |
| PowerFit.FormatMinutesReads | src/utils/powerPrecisionCalculations.ts:41 | "Hh Mm" or "Hh" reads back as the minutes in seconds |
| PowerFit.NearestMinute | src/utils/powerPrecisionCalculations.ts:40 | rounding seconds to whole minutes moves them by at most 30 s |
| PowerFit.WPrime | src/utils/powerPrecisionCalculations.ts:91 | W′ from the two efforts; WPrimeFactored and WPrimePositive give its factored form and its sign |
| PowerFit.CriticalPower | src/utils/powerPrecisionCalculations.ts:92 | CP from the severe effort and W′; CpWPrimeExact proves the CP-W′ line passes through both efforts |
| PowerFit.Po3min | src/utils/powerPrecisionCalculations.ts:109 | the modelled 3-minute power CP + W′/180; FitAprShape ties it to an accepted fit |
| PowerFit.PowerLaw | src/utils/powerPrecisionCalculations.ts:152-185 | S and E of the regression over the fit's points; PowerLawLeastSquares proves they solve the normal equations |
| PowerFit.Lt1Of | src/utils/powerPrecisionCalculations.ts:194-199 | the LT1 band from the 30-minute power; FitLt1Band gives its three ordered percentages |
| PowerFit.Fit | src/utils/powerPrecisionCalculations.ts:45-215 | the fitter as a function; FitResultShape, FitErrorPrecedence, FitAccepted and FitConsistent state what it returns and FitPowerModels ties the loop to it |
| PowerFit.CpwAt | src/utils/powerPrecisionCalculations.ts:88-96 | the CP-W′ power CP + W′/t; CpwDecreasing proves it falls strictly and stays above CP |
| PowerFit.FormatDuration | src/utils/powerPrecisionCalculations.ts:31-42 | the duration display as written; FormatDurationUnderAnHour reads it back below an hour and FormatDurationSixtyMinutes exhibits "1h 60m" |
| PowerFit.FormatDurationCorrected | src/utils/powerPrecisionCalculations.ts:39-41 | the hour display rounded to whole minutes first; FormatDurationCorrectedNearest reads it back within 30 s |
| LogLogRegression.LogLogSums | src/utils/powerPrecisionCalculations.ts:152-162 | the accumulation loop returns the sums of ln t, ln P, their products and squares over the points |
| LogLogRegression.NormalEquations | src/utils/powerPrecisionCalculations.ts:164-181 | the least-squares slope and intercept solve the normal equations |
| LogLogRegression.TwoPointLine | src/utils/powerPrecisionCalculations.ts:180-181 | a least-squares line through two points with distinct abscissas passes through both |
| LogLogRegression.TwoPointNormal | src/utils/powerPrecisionCalculations.ts:180-181 | any solution of the two-point normal equations is the line through the points |
| LogLogRegression.SumsOfTwo | src/utils/powerPrecisionCalculations.ts:152-162 | the sums over two points are the two-point sums |
| LogLogRegression.TwoPointLogLine | src/utils/powerPrecisionCalculations.ts:152-181 | in log-log coordinates the least-squares line through two points passes through both |
| LogLogRegression.TwoPointRegression | src/utils/powerPrecisionCalculations.ts:164-181 | the fitted regression line over two points passes through both |
| RunningFit.Invalid | src/utils/precisionCalculations.ts:32-82 | a refused fit is not valid, names its reason and has 0 in every number |
| RunningFit.CsLineExact | src/utils/precisionCalculations.ts:66-67 | the CS-D′ line gives exactly both maximal efforts' distances at their durations |
| RunningFit.CriticalSpeedPositive | src/utils/precisionCalculations.ts:43-66 | once both order checks pass, CS > 0 |
| RunningFit.ModelSpeedDecreasing | src/utils/precisionCalculations.ts:96-101 | the synthesised speed is CS + D′/t, falling strictly with duration and above CS when D′ > 0 |
| RunningFit.ModelPoints | src/utils/precisionCalculations.ts:96-101 | one point per sample duration, at the model speed |
| RunningFit.Vo2maxFasterThanCs | src/utils/precisionCalculations.ts:84-88 | the VO2max pace covers the 3-minute model distance in 180 s and lies strictly between 0 and the CS pace |
| RunningFit.Lt1Band | src/utils/precisionCalculations.ts:176-193 | the upper LT1 speed is 84 % of CS when E > 0.90 and 80 % otherwise, the lower is 96 % of it, and min < estimate < max |
| RunningFit.FirstFailure | src/utils/precisionCalculations.ts:32-150 | when no check fails the severe effort is the shorter one |
| RunningFit.FitRunningModels | src/utils/precisionCalculations.ts:21-221 | the fitter, with its regression sums accumulated by a loop, returns the model of the closed-form definition |
| RunningFit.BuildRegressionPoints | src/utils/precisionCalculations.ts:94-113 | the points pushed in the loop over 300, 600 and 900 s, then the long test, are the regression points |
| RunningFit.FitResultShape | src/utils/precisionCalculations.ts:32-221 | a result is valid exactly when it names no reason; a refused one zeroes every number |
| RunningFit.FitErrorPrecedence | src/utils/precisionCalculations.ts:32-124 | the checks run in order (non-positive time, time order, distance order, CS or D′ not positive, collinear points): the reason is the first failing check, and each reason is given exactly when every earlier check passes and its own fails; CS is always positive once the order checks pass, and the "fewer than two points" check never fires |
| RunningFit.FitAccepted | src/utils/precisionCalculations.ts:66-88 | an accepted fit has ordered tests, CS and D′ > 0 through both efforts, CS pace·CS = 1000 and 0 < VO2max pace < CS pace |
| RunningFit.FitRegressionPoints | src/utils/precisionCalculations.ts:94-113 | 3 or 4 points (4 exactly when the long test is used), the first three at 300/600/900 s with strictly falling speeds above CS, durations strictly rising |
| RunningFit.FitPowerLawLeastSquares | src/utils/precisionCalculations.ts:126-166 | A > 0, and k with ln A solves the normal equations of ln v on ln t over the points |
| RunningFit.FitLt1Band | src/utils/precisionCalculations.ts:176-207 | the LT1 band of an accepted fit uses 84 % of CS exactly when k + 1 > 0.90, with its estimate strictly inside |
| RunningFit.FitConsistent | src/utils/precisionCalculations.ts:21-221 | every fitter result satisfies the invariants the running pages rely on |
| RunningFit.CriticalSpeed | src/utils/precisionCalculations.ts:66 | CS as the slope of distance over time between the efforts; CsLineExact and CriticalSpeedPositive give its meaning and sign |
| RunningFit.DPrime | src/utils/precisionCalculations.ts:67 | D′ as the distance intercept; CsLineExact proves the line through both efforts |
| RunningFit.ModelSpeed | src/utils/precisionCalculations.ts:96-101 | the CS-D′ speed (CS t + D′)/t; ModelSpeedDecreasing proves it falls strictly towards CS |
| RunningFit.RegressionPoints | src/utils/precisionCalculations.ts:93-113 | the points at 5, 10 and 15 minutes and the long test when used; FitRegressionPoints states their count and durations |
| RunningFit.CsPace | src/utils/precisionCalculations.ts:84 | seconds per kilometre at CS; FitAccepted proves CS pace times CS is 1000 |
| RunningFit.Vo2maxPace | src/utils/precisionCalculations.ts:88 | the pace over the 3-minute CS-D′ distance; Vo2maxFasterThanCs proves it is faster than the CS pace |
| RunningFit.Lt1Of | src/utils/precisionCalculations.ts:176-207 | the LT1 pace band; Lt1Band and FitLt1Band state the 84 %/80 % switch and the ordered band |
| RunningFit.Fit | src/utils/precisionCalculations.ts:21-221 | the fitter as a function; FitResultShape, FitErrorPrecedence, FitAccepted and FitConsistent state what it returns and FitRunningModels ties the loop to it |
| Clock.RoundMod60 | src/utils/precisionCalculations.ts:226-227 | the rounded remainder of a pace is the rounded pace less its whole minutes, a number from 0 to 60 inclusive |
| Clock.ClockSplit | src/components/RunningSustainableTable.tsx:41-43 | whole hours and the whole minutes of the remainder make the whole minutes, the minutes below 60 |
| Clock.ReadMinSec | src/components/RunningSustainableTable.tsx:48 | "m:ss" reads back as its two fields |
| Clock.ReadHourMinSec | src/components/RunningSustainableTable.tsx:46 | "h:mm:ss" reads back as its three fields |
| Clock.FormatPaceReads | src/utils/precisionCalculations.ts:224-229 | a non-positive pace shows "--:--"; a positive one reads back as whole minutes and the rounded remainder (at most 60), which together make the pace rounded to the second |
| Clock.FormatPaceSixty | src/utils/precisionCalculations.ts:226-228 | as written, 119.6 s/km shows "1:60"; the corrected display shows "2:00" (see Findings) |
| Clock.FormatPaceCorrectedReads | src/utils/precisionCalculations.ts:224-229 | the corrected pace spells the pace rounded to the second with a seconds field below 60 |
| Clock.FormatClockReads | src/components/RunningSustainableTable.tsx:38-50 | a non-positive duration shows "--:--"; a positive one reads back as the duration rounded to the second, with hours exactly from 3600 s, minutes below 60 and seconds at most 60 |
| Clock.FormatClockSixty | src/components/RunningSustainableTable.tsx:41-49 | as written, 3599.6 s shows "59:60"; the corrected display shows "1:00:00" (see Findings) |
| Clock.FormatClockCorrectedReads | src/components/RunningSustainableTable.tsx:38-50 | the corrected display spells the rounded duration with minutes and seconds below 60 |
| Clock.ReadLastUnit | src/utils/precisionCalculations.ts:238-242 | a number and a unit letter read back as one field |
| Clock.ReadUnitThen | src/utils/precisionCalculations.ts:238-240 | a field, a space and more fields read back in that order |
| Clock.UnitsDisplayReads | src/utils/precisionCalculations.ts:237-243 | "Hh Mm Ss", "Mm Ss" or "Ss" reads back as fields that drop leading zero units and add up to the hours, minutes and seconds given |
| Clock.FormatElapsedReads | src/utils/precisionCalculations.ts:231-244 | a non-positive duration shows "--:--"; a positive one reads back as fields totalling the duration rounded to the second, ending in the rounded remainder of seconds (at most 60) |
| Clock.FormatElapsedSixty | src/utils/precisionCalculations.ts:235-240 | as written, 119.6 s shows "1m 60s"; the corrected display shows "2m 0s" (see Findings) |
| Clock.FormatElapsedCorrectedReads | src/utils/precisionCalculations.ts:231-244 | the corrected display totals the rounded duration and every minutes or seconds field is below 60 |
| Clock.FormatElapsedBriefLeads | src/components/RunningChart.tsx:36-50 | the chart's brief label is the leading field of the full display |
| Clock.FormatPace | src/utils/precisionCalculations.ts:224-229 | the pace display as written; FormatPaceReads reads it back and FormatPaceSixty exhibits "1:60" |
| Clock.FormatPaceCorrected | src/utils/precisionCalculations.ts:224-229 | the pace rounded to whole seconds before the split; FormatPaceCorrectedReads keeps the seconds below 60 |
| Clock.FormatClock | src/components/RunningSustainableTable.tsx:38-50 | the clock display as written; FormatClockReads reads it back and FormatClockSixty exhibits "59:60" |
| Clock.FormatClockCorrected | src/components/RunningSustainableTable.tsx:38-50 | the clock display of the rounded duration; FormatClockCorrectedReads keeps the fields below 60 |
| Clock.FormatElapsed | src/utils/precisionCalculations.ts:231-244 | the unit display as written; FormatElapsedReads reads it back and FormatElapsedSixty exhibits "1m 60s" |
| Clock.FormatElapsedCorrected | src/utils/precisionCalculations.ts:231-244 | the unit display of the rounded duration; FormatElapsedCorrectedReads keeps the fields below 60 |
| Clock.FormatElapsedBrief | src/components/RunningChart.tsx:36-50 | the chart's leading-unit label; FormatElapsedBriefLeads proves it is the first field of the full display |
| AthleteCard.Stats.Values | src/utils/athleteCardCalculations.ts:150-152 | the five values in the order NM, LACT, VO2, THR, STA |
| AthleteCard.Benchmarks | src/utils/athleteCardCalculations.ts:4-18 | every benchmark of both tables is positive |
| AthleteCard.WattPerKgOrdered | src/utils/athleteCardCalculations.ts:51-81 | for an accepted fit NM > LACT > VO2 > 0 W/kg, THR and STA are positive, and THR ≥ STA when E ≤ 1 |
| AthleteCard.PerKgFacts | src/utils/athleteCardCalculations.ts:60-72 | dividing the five powers by a positive weight keeps their order and sign |
| AthleteCard.PowerLawPositive | src/utils/athleteCardCalculations.ts:69-72 | the power law S·t^(E−1) is positive at every duration when S > 0 |
| AthleteCard.PowerLawNotIncreasing | src/utils/athleteCardCalculations.ts:69-72 | with E ≤ 1 the power law does not rise with duration |
| AthleteCard.ScoreProperties | src/utils/athleteCardCalculations.ts:86-99 | a score is the whole number nearest W/kg ÷ benchmark × 95, the benchmark scores 95, and a higher value never scores less |
| AthleteCard.ScoresMonotone | src/utils/athleteCardCalculations.ts:86-99 | W/kg at least as high everywhere score at least as high everywhere |
| AthleteCard.SumOfValues | src/utils/athleteCardCalculations.ts:105-106 | the sum of the values is the sum of the five fields |
| AthleteCard.OverallRatingProperties | src/utils/athleteCardCalculations.ts:104-108 | the rating is the mean rounded, never falls when a score rises, and five equal whole scores rate as that score |
| AthleteCard.TierMonotone | src/utils/athleteCardCalculations.ts:113-119 | the tier never falls as the rating rises and each tier is reached exactly at 85, 90, 95 and 100 |
| AthleteCard.ProfileIsPeak | src/utils/athleteCardCalculations.ts:124-177 | the profile is ALL-ROUNDER exactly when no z-score exceeds 1; otherwise it is the specialist of the first maximal score: NM sprinter, LACT or VO2 puncheur, THR or STA climber up to 70 kg and time trialist above |
| AthleteCard.EqualScoresAllRounder | src/utils/athleteCardCalculations.ts:155-175 | five equal scores (standard deviation 0) give ALL-ROUNDER |
| AthleteCard.ProfileAffine | src/utils/athleteCardCalculations.ts:155-176 | shifting all scores or scaling them by a positive factor leaves the profile unchanged |
| AthleteCard.HeavierNeverRatesHigher | src/utils/athleteCardCalculations.ts:182-199 | for the same fit a heavier athlete never gets higher scores, rating or tier |
| AthleteCard.HeavierPerKg | src/utils/athleteCardCalculations.ts:60-72 | a positive power over a larger weight is not larger |
| AthleteCard.FormatProfileTypeDistinct | src/utils/athleteCardCalculations.ts:202-211 | the five profiles get five different translated names and any other text passes through |
| AthleteCard.WattPerKg | src/utils/athleteCardCalculations.ts:51-81 | the five powers over the body weight; WattPerKgOrdered gives their order and HeavierPerKg their fall with weight |
| AthleteCard.Score | src/utils/athleteCardCalculations.ts:86-99 | one score, the value over its benchmark times 95, rounded; ScoreProperties states its meaning and monotonicity |
| AthleteCard.Scores | src/utils/athleteCardCalculations.ts:86-99 | the five scores of a gender; ScoresMonotone proves they never fall as the values rise |
| AthleteCard.OverallRating | src/utils/athleteCardCalculations.ts:104-108 | the rounded mean of the scores; OverallRatingProperties states it |
| AthleteCard.Tier | src/utils/athleteCardCalculations.ts:113-119 | the tier of a rating; TierMonotone gives its thresholds |
| AthleteCard.FromSpecialty | src/utils/athleteCardCalculations.ts:124-140 | the specialist of a peak, split at 70 kg for THR and STA; ProfileIsPeak uses it as the answer of the profile |
| AthleteCard.DetermineProfile | src/utils/athleteCardCalculations.ts:145-177 | the profile of a set of scores; ProfileIsPeak states it in both directions and ProfileAffine its invariance |
| AthleteCard.CalculateProfile | src/utils/athleteCardCalculations.ts:182-199 | the whole card of a fit; HeavierNeverRatesHigher relates two weights |
| AthleteCard.FormatProfileType | src/utils/athleteCardCalculations.ts:202-211 | the display name of a profile; FormatProfileTypeDistinct proves the names differ |
| ZScore.ZScores | src/utils/athleteCardCalculations.ts:155-160 | the z-scores, one per value; none when the standard deviation is 0 (every z-score is NaN) |
| ZScore.MaxOf | src/utils/athleteCardCalculations.ts:163 | the largest z-score is one of them and no other exceeds it |
| ZScore.IndexOf | src/utils/athleteCardCalculations.ts:164 | the first index holding that value |
| ZScore.Peak | src/utils/athleteCardCalculations.ts:163-175 | a peak is an index of the scores |
| ZScore.PeakSpec | src/utils/athleteCardCalculations.ts:155-175 | there is no peak exactly when the deviation is 0 or no z-score exceeds 1; a peak is the first maximal z-score and exceeds 1 |
| ZScore.Affine | src/utils/athleteCardCalculations.ts:155-160 | every value moved by a·x + b |
| ZScore.SumAffine | src/utils/athleteCardCalculations.ts:155 | the sum of moved values is a times the sum plus n·b |
| ZScore.MeanAffine | src/utils/athleteCardCalculations.ts:155 | the mean moves as each value does |
| ZScore.SquaredDeviationsAffine | src/utils/athleteCardCalculations.ts:156 | the squared deviations scale by a² |
| ZScore.StandardDeviationAffine | src/utils/athleteCardCalculations.ts:156-157 | moving every value by a·x + b (a > 0) multiplies the deviation by a |
| ZScore.VarianceNonNegative | src/utils/athleteCardCalculations.ts:156 | the population variance is never negative |
| ZScore.VarianceAffine | src/utils/athleteCardCalculations.ts:156 | the variance scales by a² |
| ZScore.SquaredDeviationsNonNegative | src/utils/athleteCardCalculations.ts:156 | a sum of squares is never negative |
| ZScore.PeakAffine | src/utils/athleteCardCalculations.ts:155-175 | a shift and a positive scale leave the peak unchanged |
| ZScore.SumConstant | src/utils/athleteCardCalculations.ts:155 | equal values sum to n times the value |
| ZScore.SquaredDeviationsConstant | src/utils/athleteCardCalculations.ts:156 | equal values have no deviation from their value |
| ZScore.PeakOfEqualScores | src/utils/athleteCardCalculations.ts:155-175 | equal scores have deviation 0 and no peak |
| ZScore.PeakIsTopValue | src/utils/athleteCardCalculations.ts:160-165 | with a non-zero deviation the peak is the first of the highest values |
| ZScore.ZOrder | src/utils/athleteCardCalculations.ts:160 | for a positive deviation the z-scores are ordered as the values |
| ZScore.Mean | src/utils/athleteCardCalculations.ts:155 | the mean of the values; MeanAffine proves it moves affinely |
| ZScore.Variance | src/utils/athleteCardCalculations.ts:156 | the population variance; VarianceNonNegative and VarianceAffine state its sign and scaling |
| ZScore.StandardDeviation | src/utils/athleteCardCalculations.ts:156-157 | the square root of the variance; StandardDeviationAffine proves it scales by a |
| Rarity.LevelMonotone | src/utils/raritySystem.ts:7-12 | a higher rating never gets a lower level |
| Rarity.LaddersAgree | src/utils/raritySystem.ts:7-12 | for every whole rating GOAT is ALIEN or HERO, LEGGENDA is PRO, ELITE is ELITE and BASE is STANDARD of the card's tier ladder |
| Rarity.ScoreStylesDifferOnlyInColor | src/utils/raritySystem.ts:15-37 | the score is gold (#FFD700) exactly for LEGGENDA and GOAT, white otherwise, and nothing else differs |
| Rarity.AvatarBorderFilter | src/utils/raritySystem.ts:40-54 | the border is the theme colour; a drop-shadow filter and the stronger glow exactly from ELITE up |
| Rarity.ParticlesFromNinetyFive | src/utils/raritySystem.ts:57-59 | particles are shown exactly for ratings of 95 and above |
| Rarity.LevelOf | src/utils/raritySystem.ts:7-12 | the rarity level of a rating; LevelMonotone and LaddersAgree state its thresholds |
| Rarity.ScoreStyles | src/utils/raritySystem.ts:15-37 | the score style of a level; ScoreStylesDifferOnlyInColor proves only the colour varies |
| Rarity.AvatarBorderStyles | src/utils/raritySystem.ts:40-54 | the avatar border of a level; AvatarBorderFilter states when the shadow and glow apply |
| Rarity.ShowParticles | src/utils/raritySystem.ts:57-59 | particles for the top level; ParticlesFromNinetyFive proves they appear exactly from 95 |
| RunningAthlete.Stats.Values | src/utils/runningAthleteCalculations.ts:173-174 | the five values in the order 1500 m, 5000 m, 10 km, half marathon, marathon |
| RunningAthlete.Benchmarks | src/utils/runningAthleteCalculations.ts:4-18 | every benchmark time of both tables is positive |
| RunningAthlete.TimeCovers | src/utils/runningAthleteCalculations.ts:66-86 | up to 960 s the time is the CS-D′ estimate clamped at 0, which is 0 exactly when the distance is at most D′ and otherwise covers the distance; beyond, the power-law time is positive and covers the distance |
| RunningAthlete.ScoreProperties | src/utils/runningAthleteCalculations.ts:100-120 | a finite time scores a whole number, a longer time never scores more, the benchmark scores 95, time 0 scores +Infinity and NaN scores NaN |
| RunningAthlete.Reals | src/utils/runningAthleteCalculations.ts:126-127 | the finite values as reals, one for one |
| RunningAthlete.TotalCases | src/utils/runningAthleteCalculations.ts:127 | the sum of finite values is their real sum, a NaN makes it NaN, and a +Infinity without NaN or −Infinity makes it +Infinity |
| RunningAthlete.OverallRatingCases | src/utils/runningAthleteCalculations.ts:125-129 | finite scores rate as the rounded mean, a NaN score gives NaN, and a +Infinity score without NaN gives +Infinity |
| RunningAthlete.TierAgreesWithCycling | src/utils/runningAthleteCalculations.ts:134-140 | every whole rating gets the same tier as on the cycling card; +Infinity is ALIEN and NaN STANDARD |
| RunningAthlete.ProfileIsPeak | src/utils/runningAthleteCalculations.ts:145-199 | ATLETA COMPLETO exactly when a score is not finite or no z-score exceeds 1; otherwise the distinct specialist of the first highest score |
| RunningAthlete.EqualScoresComplete | src/utils/runningAthleteCalculations.ts:177-197 | five equal finite scores give ATLETA COMPLETO |
| RunningAthlete.ProfileAffine | src/utils/runningAthleteCalculations.ts:177-197 | a shift and a positive scale of finite scores leave the profile unchanged |
| RunningAthlete.FiniteCard | src/utils/runningAthleteCalculations.ts:205-227 | positive finite times give finite scores, the rounded mean as rating, and that rating's tier on the cycling ladder |
| RunningAthlete.FormatProfileTypeDistinct | src/utils/runningAthleteCalculations.ts:230-240 | the six profiles get six different translated names and any other text passes through |
| RunningAthlete.PowerLawTime | src/utils/runningAthleteCalculations.ts:66-86 | the power-law time, with the double infinities of a zero exponent; TimeCovers uses it beyond 960 s |
| RunningAthlete.Time | src/utils/runningAthleteCalculations.ts:66-86 | the predicted race time; TimeCovers states which model applies and what it covers |
| RunningAthlete.Times | src/utils/runningAthleteCalculations.ts:57-94 | the five predicted times; FiniteCard relates positive finite times to the card |
| RunningAthlete.Score | src/utils/runningAthleteCalculations.ts:100-120 | one score from benchmark over time; ScoreProperties states its meaning and the infinities |
| RunningAthlete.Scores | src/utils/runningAthleteCalculations.ts:100-120 | the five scores of a gender; FiniteCard proves finite times give finite scores |
| RunningAthlete.OverallRating | src/utils/runningAthleteCalculations.ts:125-129 | the rounded mean with NaN and infinities carried; OverallRatingCases states each case |
| RunningAthlete.Tier | src/utils/runningAthleteCalculations.ts:134-140 | the tier of a rating; TierAgreesWithCycling proves it matches the cycling ladder |
| RunningAthlete.DetermineProfile | src/utils/runningAthleteCalculations.ts:145-199 | the profile of a set of scores; ProfileIsPeak states it in both directions and ProfileAffine its invariance |
| RunningAthlete.CalculateProfile | src/utils/runningAthleteCalculations.ts:205-227 | the whole card of a valid model; FiniteCard states its rating and tier |
| RunningAthlete.FormatProfileType | src/utils/runningAthleteCalculations.ts:230-240 | the display name of a profile; FormatProfileTypeDistinct proves the names differ |
| PowerCalculator.AprPowerDecreasing | src/components/PowerPerformanceCalculator.tsx:46-55 | for an accepted fit, the calculator's APR power (Pmax at exactly 1 s, the curve elsewhere) falls strictly on [1, ∞), which is what lets the solver bisect |
| PowerCalculator.BisectBracket | src/components/PowerPerformanceCalculator.tsx:95-112 | from a bracket whose ends straddle the target, the bisection either converges at a duration inside the bracket whose power is within 0.1 W of the target, or stops with a straddling bracket at most 0.01 s wide |
| PowerCalculator.NarrowAfterHundred | src/components/PowerPerformanceCalculator.tsx:92-95 | after 100 halvings of the 179 s bracket its width is far below the 0.01 s tolerance, so the iteration cap never cuts the search short |
| PowerCalculator.SolveAprSpec | src/components/PowerPerformanceCalculator.tsx:63-115 | the solver answers nothing exactly when the power is above Pmax or below the APR power at 180 s; within 0.1 W of Pmax it answers 1 s; otherwise it answers a duration in [1, 180] that is the converged point or the midpoint of a straddling bracket of width at most 0.01 s |
| PowerCalculator.SolveAprTime | src/components/PowerPerformanceCalculator.tsx:63-115 | the loop with its early return computes exactly the solver's answer |
| PowerCalculator.PowerFromTimeSpec | src/components/PowerPerformanceCalculator.tsx:118-181 | nothing is shown exactly for an invalid fit or a non-positive duration; the power shown is the APR power, CP + W′/t or S·t^(E−1) of the duration, whichever model it is named after; from 120 s to 180 s both model powers of the duration are reported and the lower one is shown, with its model, a non-negative difference and a percentage in [0, 100); otherwise APR below 120 s, CP-W′ from 180 s (exclusive) to 960 s, and the power law beyond |
| PowerCalculator.GapBelowLarger | src/components/PowerPerformanceCalculator.tsx:136-137 | for two positive powers or durations the difference relative to the larger one, in percent, lies in [0, 100) |
| PowerCalculator.CalculateTimeFromPower | src/components/PowerPerformanceCalculator.tsx:184-258 | the method, with the solver's loop, computes the time prediction of the specification function |
| PowerCalculator.TimeFromPowerSolved | src/components/PowerPerformanceCalculator.tsx:184-258 | for a valid fit, a positive power and E ≠ 1 a positive time is always found; the CP-W′ duration exists exactly above CP and is positive and gives that power back on the CP-W′ curve |
| PowerCalculator.PowerTimeRoundTrip | src/components/PowerPerformanceCalculator.tsx:167-169 | between 180 s and 960 s the power predicted for a duration, turned back into a duration, gives that duration again, both by the CP-W′ model |
| PowerCalculator.ChooseTimePrecedence | src/components/PowerPerformanceCalculator.tsx:206-258 | both durations in [120, 180] give the shorter one, named by its model, with both reported and the gap in [0, 100); otherwise, in this order, an APR duration in [1, 180], a CP-W′ duration in (180, 960], a positive CP-W′ duration up to 180 s, a positive power-law duration; each label is chosen exactly under its condition and carries that duration; anything else is "no solution" without a duration |
| PowerCalculator.TimeFromPowerModels | src/components/PowerPerformanceCalculator.tsx:184-258 | for an accepted fit and a positive power, an APR label carries the solver's duration, a CP-W′ label the duration W′/(P − CP), which gives the power back, a power-law label the power-law duration, which gives the power back, and a transition reports the solver's and the CP-W′ durations |
| PowerCalculator.PowerLawTimeGivesPower | src/components/PowerPerformanceCalculator.tsx:244-249 | for an accepted fit with E ≠ 1 the power-law duration of a positive power exists and S·t^(E−1) at it is that power |
| PowerCalculator.CpwDurationSolved | src/components/PowerPerformanceCalculator.tsx:200-204 | for an accepted fit the CP-W′ duration exists exactly above CP, is positive, and CP + W′/t at it is the power |
| PowerCalculator.AprPower | src/components/PowerPerformanceCalculator.tsx:46-55 | Pmax at one second and the APR curve elsewhere; AprPowerDecreasing proves it falls |
| PowerCalculator.Bisect | src/components/PowerPerformanceCalculator.tsx:92-112 | the bisection loop as a function; BisectBracket and NarrowAfterHundred state the bracket it keeps and its width |
| PowerCalculator.SolveApr | src/components/PowerPerformanceCalculator.tsx:63-115 | the APR duration of a power; SolveAprSpec states when it answers and what |
| PowerCalculator.PowerFromTime | src/components/PowerPerformanceCalculator.tsx:118-181 | the power of a duration; PowerFromTimeSpec states the model chosen and that the power is that model's power at the duration |
| PowerCalculator.CpwDuration | src/components/PowerPerformanceCalculator.tsx:200-204 | the CP-W′ duration W′/(P − CP) above CP; CpwDurationSolved and PowerTimeRoundTrip prove it inverts the CP-W′ power |
| PowerCalculator.PowerLawTimeFor | src/components/PowerPerformanceCalculator.tsx:244-249 | the power-law duration (P/S)^(1/(E−1)); PowerLawTimeGivesPower proves it gives the power back on S·t^(E−1) |
| PowerCalculator.ChooseTime | src/components/PowerPerformanceCalculator.tsx:206-258 | the choice among the candidate durations; ChooseTimePrecedence states the precedence in both directions |
| PowerCalculator.TimeFromPower | src/components/PowerPerformanceCalculator.tsx:184-258 | the duration of a power; TimeFromPowerModels ties each shown duration to its model and back to the power, TimeFromPowerSolved proves one is always found |
| PerformanceCalculator.TimeFromDistance | src/components/PerformanceCalculator.tsx:28-36 | a time is given exactly when the models are valid with non-zero CS and D′ and the distance is present and positive |
| PerformanceCalculator.TimeFromDistanceCovers | src/components/PerformanceCalculator.tsx:38-74 | the CS-D′ model is used exactly when its duration lies strictly between 0 and 1020 s; a time is missing only for the power law with k + 1 = 0; a time found is positive, covers the distance under the model used, and its pace is the time per kilometre |
| PerformanceCalculator.DistanceFromTime | src/components/PerformanceCalculator.tsx:82-93 | a distance is given exactly when the models are valid with non-zero CS and D′ and the fields, read with `parseInt(...) \|\| 0`, add up to a positive number of seconds |
| PerformanceCalculator.DistancePositive | src/components/PerformanceCalculator.tsx:98-113 | for a valid fit both curves give a positive distance for a positive time |
| PerformanceCalculator.DistanceFromTimePace | src/components/PerformanceCalculator.tsx:98-121 | the CS-D′ model is used exactly below 1020 s, the distance is positive and pace times distance is the time times 1000 |
| PerformanceCalculator.ShortRoundTrip | src/components/PerformanceCalculator.tsx:100-102 | below 1020 s the distance predicted for a time, turned back into a time, gives that time again by the CS-D′ model |
| PerformanceCalculator.LongRoundTrip | src/components/PerformanceCalculator.tsx:103-113 | from 1020 s on, when the CS-D′ line does not claim the distance, the power-law distance of a time turned back into a time gives that time again by the power law |
| PerformanceCalculator.FormatDistanceReads | src/utils/precisionCalculations.ts:246-248 | a non-negative distance display reads back to the distance to the nearest 10 m |
| PerformanceCalculator.InMeters | src/components/PerformanceCalculator.tsx:35 | the distance field in metres; TimeFromDistance uses it |
| PerformanceCalculator.TotalSeconds | src/components/PerformanceCalculator.tsx:80-83 | the time fields in seconds, a missing field as 0; DistanceFromTime uses it |
| PerformanceCalculator.FormatDistance | src/utils/precisionCalculations.ts:246-248 | the distance display; FormatDistanceReads reads it back |
| RunningCurves.CsRoundTrip | src/components/RunningChart.tsx:82-88 | the CS-D′ duration of a distance and the distance of a duration are inverse to each other |
| RunningCurves.PowerLawDistanceIsSpeedTimesTime | src/components/RunningChart.tsx:90-101 | the power-law distance A t^(k+1) is the predicted speed A t^k times the duration |
| RunningCurves.PowerLawDurationCovers | src/components/RunningChart.tsx:68-80 | for a positive A and k + 1 ≠ 0 the power-law duration of a positive distance exists, is positive and covers that distance |
| RunningCurves.PowerLawDurationOfDistance | src/components/RunningChart.tsx:68-80 | under the same conditions the power-law duration of the distance covered in a positive time is that time |
| RunningCurves.CsDistance | src/components/RunningChart.tsx:82-88 | the CS-D′ distance CS t + D′; CsRoundTrip proves CsDuration inverts it |
| RunningCurves.CsDuration | src/components/RunningChart.tsx:82-88 | the CS-D′ duration (d − D′)/CS; CsRoundTrip proves CsDistance inverts it |
| RunningCurves.PowerLawDistance | src/components/RunningChart.tsx:90-101 | the power-law distance A t^(k+1); PowerLawDistanceIsSpeedTimesTime ties it to the speed |
| RunningCurves.PowerLawDuration | src/components/RunningChart.tsx:68-80 | the power-law duration of a distance; PowerLawDurationCovers and PowerLawDurationOfDistance prove the two directions of the inverse |
| PowerSustainable.PowerForDuration | src/components/PowerSustainableTable.tsx:48-66 | the row's model is APR exactly below 180 s, CP-W′ exactly from 180 s to 960 s, and the power law beyond |
| PowerSustainable.Table | src/components/PowerSustainableTable.tsx:68-88 | one row per listed duration, in order, with its label, the power and model of that duration, and a relative power that times the body weight gives the absolute power |
| PowerSustainable.TableModels | src/components/PowerSustainableTable.tsx:68-78 | the 5 s and 60 s rows use APR, the 3 to 10 minute rows CP-W′ and the 20 to 60 minute rows the power law |
| PowerSustainable.ShortRowsDecrease | src/components/PowerSustainableTable.tsx:48-60 | for an accepted fit the first five rows fall strictly in absolute and in relative power, the 3 minute row is the fit's 3 minute power, and the 10 minute row stays above CP |
| PowerSustainable.LongRowsNotRising | src/components/PowerSustainableTable.tsx:61-65 | when the power law does not rise (E ≤ 1) the 20 to 60 minute rows do not rise either |
| PowerSustainable.AbsoluteCellReads | src/components/PowerSustainableTable.tsx:117-120 | the absolute cell of a row with non-negative power reads back as that power rounded to whole watts, followed by " W" |
| PowerSustainable.RelativeCellReads | src/components/PowerSustainableTable.tsx:117-120 | the relative cell ends in " W/kg" and its number reads back as the relative power rounded to the nearest tenth |
| PowerSustainable.RowOf | src/components/PowerSustainableTable.tsx:48-88 | one row: label, model, power and relative power; Table and TableModels state them |
| PowerSustainable.Cells | src/components/PowerSustainableTable.tsx:116-121 | the two cells of a row; AbsoluteCellReads and RelativeCellReads read them back |
| RunningSustainable.TimeForDistance | src/components/RunningSustainableTable.tsx:70-107 | the CS-D′ model is used exactly when the estimate is at most 1020 s, with the CS-D′ time (the time at CS within D′), and otherwise the power-law duration |
| RunningSustainable.TimeForDistanceCovers | src/components/RunningSustainableTable.tsx:70-107 | a time is non-negative and zero exactly at the distance D′; beyond D′ the CS-D′ time covers the distance on the line, within D′ it is the distance run at CS; the power-law time covers the distance, and is missing exactly when k + 1 = 0 |
| RunningSustainable.AgreesWithCalculator | src/components/RunningSustainableTable.tsx:87-95 | a distance whose CS-D′ duration lies strictly between 0 and 1020 s gets that same duration and model as in the performance calculator |
| RunningSustainable.RowFor | src/components/RunningSustainableTable.tsx:121-132 | the row carries the distance and its prediction, has a pace exactly when it has a time, and pace times distance is time times 1000 |
| RunningSustainable.Rows | src/components/RunningSustainableTable.tsx:121-132 | one row per distance, in the same order |
| RunningSustainable.Table | src/components/RunningSustainableTable.tsx:109-132 | ten rows, one per listed race distance from 1500 m to 50 km, in order |
| RunningSustainable.CsTime | src/components/RunningSustainableTable.tsx:70-107 | the CS-D′ time, at CS within D′; TimeForDistanceCovers states what it covers |
| RunningSustainable.Estimate | src/components/RunningSustainableTable.tsx:70-107 | the time that picks the model; TimeForDistance states the choice in both directions |
| RunningSustainable.Cells | src/components/RunningSustainableTable.tsx:38-57 | the time and pace cells of a row; CellsRead reads them back |
| RunningSustainable.CellsRead | src/components/RunningSustainableTable.tsx:38-57 | a row with a positive time shows a time cell reading back as that time and a pace cell reading back as its pace; otherwise both cells are the placeholder |
| RunningSustainable.RowCellsRead | src/components/RunningSustainableTable.tsx:121-132 | the cells of the row of a positive distance read back as its time and pace unless the distance is exactly D′ or k + 1 = 0 |
| RunningSustainable.TableCellsRead | src/components/RunningSustainableTable.tsx:122-132 | for a shown model every row of the ten reads back as its time and pace, save the two cases above |
| RunningSustainable.PaceCellSixty | src/components/RunningSustainableTable.tsx:52-57 | as written, a pace of 119.6 s/km shows "1:60"; the corrected display gives "2:00" |
| PdfReport.PesoKg | src/components/PdfLeadForm.tsx:188 | the report's weight is positive, and is the entered weight whenever one was entered |
| PdfReport.SustainedPower | src/components/PdfReportGenerator.tsx:335-350 | the report uses APR exactly up to and including 180 s, CP-W′ exactly from 180 s (exclusive) to 960 s, and the power law beyond |
| PdfReport.ReadSingle | src/components/PdfReportGenerator.tsx:352-362 | a label of a number and one unit letter reads back as that many seconds, minutes or hours |
| PdfReport.ReadPair | src/components/PdfReportGenerator.tsx:352-362 | a minutes-and-seconds or hours-and-minutes label reads back as its total in seconds |
| PdfReport.LabelReads | src/components/PdfReportGenerator.tsx:352-362 | below an hour a duration label reads back as its exact number of seconds; from an hour on, as its whole minutes, the leftover seconds dropped |
| PdfReport.OneDecimalNearest | src/components/PdfReportGenerator.tsx:367 | the one-decimal rounding is within 0.05 of the value and keeps the order of values |
| PdfReport.SustainedTable | src/components/PdfReportGenerator.tsx:319-373 | one row per listed duration |
| PdfReport.GenerateSustainedPowerTable | src/components/PdfReportGenerator.tsx:319-373 | the loop appends, in order, the row of each duration, so the result is the table |
| PdfReport.TableLabels | src/components/PdfReportGenerator.tsx:352-365 | every label of the table reads back as its duration |
| PdfReport.TableDecreasing | src/components/PdfReportGenerator.tsx:319-373 | for an accepted fit the powers of the first nine durations (up to 15 minutes) fall strictly and the shown whole watts and W/kg never rise; when E ≤ 1 the 20 to 60 minute powers do not rise either |
| PdfReport.ShortPowersFall | src/components/PdfReportGenerator.tsx:335-345 | up to 960 s the report's power falls strictly with the duration |
| PdfReport.SitesDiffer | src/components/PdfReportGenerator.tsx:335-339 | the report and the sustainable table disagree at two points: at 5 s the table shows Pmax and the report the lower APR power; at 180 s the table shows the CP-W′ power (the 3 minute power) and the report a higher APR power |
| PdfReport.Vo2maxRoundsPanel | src/components/PdfReportGenerator.tsx:376-384 | the report's VO2max is the parameters panel's estimate rounded to two decimals, within 0.005 of it, and never lower for a lighter rider |
| PdfReport.TrainingZones | src/components/PdfReportGenerator.tsx:387-453 | six zones |
| PdfReport.TrainingZonesAgree | src/components/PdfReportGenerator.tsx:387-453 | the report's zones are the zones table's; adjacent zones share their W/kg boundary, which is the boundary over the weight to one decimal; Z1 has no lower and Z6 no upper W/kg bound |
| PdfReport.ReportFigures | src/components/PdfReportGenerator.tsx:459-470 | the report's 50 minute power is the parameters panel's, and its athlete profile is that of a male athlete of the report's weight |
| PdfReport.Label | src/components/PdfReportGenerator.tsx:352-362 | the compact duration label; LabelReads reads it back |
| PdfReport.OneDecimal | src/components/PdfReportGenerator.tsx:367 | one-decimal rounding; OneDecimalNearest bounds its error |
| PdfReport.RowOf | src/components/PdfReportGenerator.tsx:335-370 | one row of the report table; SustainedPower states the model and TableDecreasing the order |
| PdfReport.Vo2max | src/components/PdfReportGenerator.tsx:376-384 | the report's VO2max; Vo2maxRoundsPanel ties it to the panel's value |
| RunningPdfReport.PredictedTime | src/components/RunningPdfReportGenerator.tsx:282-305 | a time is missing only when CS is 0 |
| RunningPdfReport.PredictedTimeCovers | src/components/RunningPdfReportGenerator.tsx:282-305 | for a valid model and a positive distance a positive time is always given; it covers the distance on the CS-D′ line when that duration is strictly between 0 and 1020 s, on the power law otherwise, and when k + 1 = 0 the distance is run at CS |
| RunningPdfReport.AgreesWithCalculator | src/components/RunningPdfReportGenerator.tsx:283-299 | whenever the performance calculator gives a time for a distance, the report predicts the same time |
| RunningPdfReport.PredictionFor | src/components/RunningPdfReportGenerator.tsx:307-314 | the prediction carries its distance, the predicted time shown by `formatTime` and the average pace time × 1000 / metres shown by `formatPace`, both as written; without a time both cells are "--:--" |
| RunningPdfReport.PredictionReads | src/components/RunningPdfReportGenerator.tsx:251-314 | for a valid model and a positive distance a time is predicted; its display reads back as that time rounded to the second, with hours exactly from an hour on, minutes below 60 and a seconds field that may reach 60; the pace display reads back as the floored minutes and the rounded remainder of the average pace, together the pace rounded to the second, its seconds field again up to 60 |
| RunningPdfReport.DisplaysRead | src/components/RunningPdfReportGenerator.tsx:251-269 | the time and pace displays of any positive time over a positive distance read back as described for the prediction |
| RunningPdfReport.PredictionTimeSixty | src/components/RunningPdfReportGenerator.tsx:258-269 | as written, a predicted 3599.6 s is shown as "59:60", where rounding first gives "1:00:00" (see Findings) |
| RunningPdfReport.PredictionPaceSixty | src/components/RunningPdfReportGenerator.tsx:251-256 | as written, an average pace of 119.6 s/km is shown as "1:60", where rounding first gives "2:00" (see Findings) |
| RunningPdfReport.Predictions | src/components/RunningPdfReportGenerator.tsx:282-315 | one prediction per distance, in the same order |
| RunningPdfReport.ReportPredictions | src/components/RunningPdfReportGenerator.tsx:271-281 | seven predictions, for distances that increase strictly from 1500 m to 50 km |
| RunningPdfReport.LineTime | src/components/RunningPdfReportGenerator.tsx:282-305 | the CS-D′ line time; PredictedTimeCovers states what the chosen time covers |
| RunningPdfReport.PowerLawTime | src/components/RunningPdfReportGenerator.tsx:282-305 | the power-law time; PredictedTimeCovers and AgreesWithCalculator state its meaning |
| RunningPdfReport.ShowTime | src/components/RunningPdfReportGenerator.tsx:258-269 | the report's time display; DisplaysRead reads it back and PredictionTimeSixty exhibits "59:60" |
| RunningPdfReport.AveragePace | src/components/RunningPdfReportGenerator.tsx:308 | time × 1000 / metres; PredictionReads ties it to the prediction |
| RunningPdfReport.ShowPace | src/components/RunningPdfReportGenerator.tsx:251-256 | the report's pace display; DisplaysRead reads it back and PredictionPaceSixty exhibits "1:60" |
| PowerZones.Table | src/components/PowerZonesTable.tsx:51-112 | six zones |
| PowerZones.TableChains | src/components/PowerZonesTable.tsx:51-112 | each zone's upper bound is the next zone's lower bound, the rounded boundary (0.8 LT1, LT1, 0.92 CP, 1.02 CP, P3min); Z1 has no lower and Z6 no upper bound; the domains and RPEs are the fixed ones |
| PowerZones.ZonesTable | src/components/PowerZonesTable.tsx:36-49 | for a consistent fit the table is shown exactly when the fit is accepted, and then it is the zones of its LT1 estimate, CP and 3 minute power |
| PowerZones.BoundariesOrdered | src/components/PowerZonesTable.tsx:47-49 | for an accepted fit 0.8 LT1 < LT1 and 0.92 CP < 1.02 CP always; LT1 < 0.92 CP exactly when W′ < 408 CP, and 1.02 CP < P3min exactly when W′ > 3.6 CP |
| PowerZones.ZoneBoundsInOrder | src/components/PowerZonesTable.tsx:67-97 | when those two conditions hold, every zone's rounded lower bound is at most its upper bound |
| PowerZones.Boundaries | src/components/PowerZonesTable.tsx:47-107 | the five zone boundaries; BoundariesOrdered proves them increasing for an accepted fit |
| RunningZones.VelocityPositive | src/components/RunningZonesTable.tsx:58-78 | for a valid model every sustainable speed is positive, and up to 180 s it is the CS-D′ average speed (CS + D′/t) in km/h |
| RunningZones.ThreeMinutePaceIsVo2max | src/components/RunningZonesTable.tsx:83-88 | the pace at the 3 minute speed is the model's VO2max pace |
| RunningZones.Table | src/components/RunningZonesTable.tsx:90-157 | six zones |
| RunningZones.TableChains | src/components/RunningZonesTable.tsx:90-157 | adjacent zones share their speed and their pace boundary; only Z1 lacks a lower and only Z6 an upper speed bound; every pace shown is 3600 over the speed bound beside it; the domains run Moderate, Moderate, Heavy, Heavy, Severe, Extreme with RPEs 1-2, 3-4, 5-6, 7, >8, >8 |
| RunningZones.TableMatches | src/components/RunningZonesTable.tsx:86-88 | every pace bound of the table is 3600 over its speed bound, and a bound is open on the speed side exactly when it is open on the pace side |
| RunningZones.Zones | src/components/RunningZonesTable.tsx:50-88 | six zones built from the LT1 estimate pace and the speeds at 3600, 1500 and 180 s |
| RunningZones.ZonesChain | src/components/RunningZonesTable.tsx:81-157 | a model's zones chain as above and the fast end of the severe zone Z5 is the VO2max pace |
| RunningZones.VelocityAtTime | src/components/RunningZonesTable.tsx:58-78 | the sustainable speed of a duration; VelocityPositive states its sign and ThreeMinutePaceIsVo2max its 3-minute value |
| RunningZones.SpeedRange | src/components/RunningZonesTable.tsx:96-152 | the speed cell of a zone; SpeedCellReads reads it back |
| RunningZones.PaceRange | src/components/RunningZonesTable.tsx:96-152 | the pace cell of a zone through the component's own formatPace; PaceCellReads reads it back |
| RunningZones.SpeedCellReads | src/components/RunningZonesTable.tsx:96-152 | a zone with non-negative speed bounds shows a speed cell whose numbers read back as those bounds, each rounded to two decimals, with the mark of an open zone |
| RunningZones.PaceCellReads | src/components/RunningZonesTable.tsx:32-37 | a zone with positive pace bounds shows a pace cell whose paces read back as floor minutes and rounded remainder seconds of each bound, with the mark of an open zone |
| RunningZones.TableCellsRead | src/components/RunningZonesTable.tsx:90-157 | with a positive LT1 pace and positive speeds every cell of all six zones reads back as its zone's bounds |
| RunningZones.ZonesCellsRead | src/components/RunningZonesTable.tsx:50-157 | for a shown model every cell of its zone table reads back as its zone's bounds |
| RunningZones.ZonePaceSixty | src/components/RunningZonesTable.tsx:32-37 | as written, a 3-minute pace of 119.6 s/km shows "< 1:60" in the last zone; the corrected display gives "2:00" |
| ModelParameters.PerKilogram | src/components/ModelParameters.tsx:43-48 | a value per kilogram times the weight gives the value back, and is positive exactly when the value is |
| ModelParameters.Parameters | src/components/ModelParameters.tsx:17-48 | the panel shows values exactly for an accepted fit |
| ModelParameters.ParametersFacts | src/components/ModelParameters.tsx:31-40 | for an accepted fit the panel shows P50min as the power law at 3000 s, P5min as CP + W′/300, the relative VO2max as 7.44 P5min/w + 27.51 ml/kg/min, the absolute VO2max as (7.44 P5min + 27.51 w)/1000 L/min, and the LT1 bounds as the band's ends rounded to whole watts, the minimum at most the maximum |
| ModelParameters.RelativeValues | src/components/ModelParameters.tsx:43-48 | every relative value times the body weight gives its absolute value back, the LT1 ones after rounding |
| ModelParameters.RelativeOrder | src/components/ModelParameters.tsx:43-46 | for an accepted fit Pmax, the 3 minute power and CP per kilogram are positive and strictly decreasing |
| ModelParameters.Vo2Monotone | src/components/ModelParameters.tsx:34-35 | the VO2max estimate is above 27.51, falls with body weight and rises with the 5 minute power |
| ModelParameters.P50minBetween | src/components/ModelParameters.tsx:31 | when the power law does not rise (E ≤ 1), the 50 minute power lies between the power-law powers at 60 and 20 minutes |
| ModelParameters.P50min | src/components/ModelParameters.tsx:31 | the power-law power at 50 minutes; P50minBetween bounds it and ParametersFacts puts it on the panel |
| ModelParameters.Vo2Relative | src/components/ModelParameters.tsx:34-35 | the VO2max estimate; Vo2Monotone states its growth and ParametersFacts puts it on the panel |
| PhysiologicalProfile.FatigueIndexDecreasing | src/components/PhysiologicalProfile.tsx:47-64 | the fatigue index (1 − 2^(E−1))·100 falls strictly as the exponent rises, a flatter curve never lands in a faster-fatiguing band, exponent 1 loses nothing and the index stays below 100 |
| PhysiologicalProfile.BandMonotone | src/components/PhysiologicalProfile.tsx:51-61 | a larger index never lands in a more resistant band (below 7.5 resistant, up to 9.5 mixed, above that fast) |
| PhysiologicalProfile.BarWidth | src/components/PhysiologicalProfile.tsx:207 | the bar is at most full and never negative for a non-negative index; it is full exactly from index 12.5 on, otherwise eight times the index, and a full bar always shows a fast band |
| PhysiologicalProfile.BarWidthMonotone | src/components/PhysiologicalProfile.tsx:207 | a larger index never gives a shorter bar |
| PhysiologicalProfile.UtilisationBetween | src/components/PhysiologicalProfile.tsx:67-69 | with positive CP and W′ the utilisation lies strictly between 0 and 100 % and is CP's share of the 5 minute power |
| PhysiologicalProfile.Orient | src/components/PhysiologicalProfile.tsx:72-89 | speed-oriented exactly when the STA score is more than 5 below the VO2 score |
| PhysiologicalProfile.IconsDistinct | src/components/PhysiologicalProfile.tsx:92-100 | each profile type has its own icon |
| PhysiologicalProfile.ProfilePage | src/components/PhysiologicalProfile.tsx:22-38 | the page is shown exactly for an accepted fit |
| PhysiologicalProfile.ProfilePageFacts | src/components/PhysiologicalProfile.tsx:38-102 | the utilisation is strictly between 0 and 100 %, the index is below 100 and its band is the one of the index, and the orientation and icon are those of the card's scores and profile |
| PhysiologicalProfile.FatigueIndex | src/components/PhysiologicalProfile.tsx:47-48 | (1 − 2^(E−1)) × 100; FatigueIndexDecreasing proves it falls as E rises |
| PhysiologicalProfile.BandOf | src/components/PhysiologicalProfile.tsx:51-61 | the fatigue band; BandMonotone states its thresholds |
| PhysiologicalProfile.Utilisation | src/components/PhysiologicalProfile.tsx:67-69 | CP over the 5-minute power, in percent; UtilisationBetween bounds it |
| PhysiologicalProfile.IconOf | src/components/PhysiologicalProfile.tsx:92-100 | the icon of a profile; IconsDistinct proves each profile gets its own |
| RunningPhysiologicalProfile.OrientCases | src/components/RunningPhysiologicalProfile.tsx:72-83 | endurance-oriented exactly when the 1500 m score is finite and more than 3 below a finite 10 km score, or the 10 km score is +Infinity |
| RunningPhysiologicalProfile.ProfilePage | src/components/RunningPhysiologicalProfile.tsx:22-38 | the page is shown exactly for a valid model |
| RunningPhysiologicalProfile.ProfilePageFacts | src/components/RunningPhysiologicalProfile.tsx:38-83 | the utilisation is strictly between 0 and 100 %, the index is below 100 with its band, the orientation follows the card's scores, and a model with a flatter speed curve never shows a faster-fatiguing band |
| RunningPhysiologicalProfile.Orient | src/components/RunningPhysiologicalProfile.tsx:72-83 | the speed or endurance reading; OrientCases states both directions |
| PowerChart.FormatTimeUnderAnHour | src/components/PowerChart.tsx:13-20 | below an hour the full axis label reads back as the rounded number of seconds, zero seconds included |
| PowerChart.FormatTimeBrief | src/components/PowerChart.tsx:13-23 | the brief label reads back as the seconds below a minute, the whole minutes below an hour and the whole hours from an hour on |
| PowerChart.FormatTimeSixtyMinutes | src/components/PowerChart.tsx:21-23 | as written, 1 h 59 min 30 s is labelled "1h 60m", which reads back as two hours (see Findings) |
| PowerChart.FormatTimeCorrectedNearest | src/components/PowerChart.tsx:21-23 | the corrected full label reads back, from an hour on, as a whole number of minutes within 30 s of the rounded duration |
| PowerChart.MajorTicksExact | src/components/PowerChart.tsx:369-372 | every major tick's brief label reads back as the tick itself |
| PowerChart.RawGrid | src/components/PowerChart.tsx:30-34 | the grid before the filter has 322 durations |
| PowerChart.RawGridAt | src/components/PowerChart.tsx:30-34 | position i of the grid is i + 1 up to 180 s, then steps of 30 s to 1200 s, then steps of 180 s to 20640 s |
| PowerChart.KeepFirstIncreasing | src/components/PowerChart.tsx:34 | on a strictly increasing sequence the duplicate filter keeps everything |
| PowerChart.GridShape | src/components/PowerChart.tsx:30-34 | the filtered grid is the raw grid: 322 strictly increasing durations from 1 s through 180 s and 1200 s to 20640 s |
| PowerChart.GenerateCurveData | src/components/PowerChart.tsx:25-51 | a refused fit gives three empty series; otherwise each series is its curve sampled over the grid where that curve is drawn, in order |
| PowerChart.SeriesMembers | src/components/PowerChart.tsx:38-50 | a point is in a series exactly when its duration is a sampled duration in the curve's domain and its power is the curve's value there |
| PowerChart.SeriesIncreasing | src/components/PowerChart.tsx:38-50 | over increasing durations a series' durations increase too |
| PowerChart.GridMember | src/components/PowerChart.tsx:30-34 | every grid duration lies in [1, 20640], none lies strictly between 3540 and 3600 s, and from an hour on every one is a whole number of minutes |
| PowerChart.GridLabelsAgree | src/components/PowerChart.tsx:319-323 | the tooltip title of every grid duration is the same as the corrected label, so the chart never shows "60m" |
| PowerChart.WholeMinutesLabel | src/components/PowerChart.tsx:21-23 | on a whole number of minutes from an hour on, the label as written equals the corrected label and its minutes field is below 60 |
| PowerChart.GridPoint | src/components/PowerChart.tsx:38-50 | a point of a series lies on its curve at a grid duration |
| PowerChart.SeriesFall | src/components/PowerChart.tsx:38-50 | on an accepted fit the APR and CP-W′ series fall strictly from point to point, and the power-law series does not rise when E ≤ 1 |
| PowerChart.SeriesSpan | src/components/PowerChart.tsx:38-50 | the APR series runs from Pmax at 1 s to 180 s, the CP-W′ series from 120 s to 3540 s and the power-law series from 180 s to 20640 s |
| PowerChart.SeriesWithinSpan | src/components/PowerChart.tsx:38-50 | no point of a series lies outside those ends |
| PowerChart.TooltipCurves | src/components/PowerChart.tsx:326-348 | at most two models are listed, and at least one for an accepted fit and a positive duration |
| PowerChart.TooltipMatchesSeries | src/components/PowerChart.tsx:331-344 | away from 180 s the tooltip lists exactly the curves drawn at that duration; at 180 s the APR curve is drawn but not listed, and its point there lies above the CP-W′ point |
| PowerChart.AxisBounds | src/components/PowerChart.tsx:382-383 | the axis top is a multiple of 100 W, at least 105 % of Pmax and less than 100 W above it; the bottom is at least 50 W and at least half CP |
| PowerChart.SeriesWithinAxis | src/components/PowerChart.tsx:382-383 | every APR and CP-W′ point lies above CP, every APR point at most at Pmax below the axis top, and a point lies below the axis bottom only when the 50 W floor sets it |
| PowerChart.FormatTime | src/components/PowerChart.tsx:13-23 | the axis and tooltip label as written; FormatTimeUnderAnHour and FormatTimeBrief read it back and FormatTimeSixtyMinutes exhibits "1h 60m" |
| PowerChart.FormatTimeCorrected | src/components/PowerChart.tsx:21-23 | the hour label of the total rounded to whole minutes; FormatTimeCorrectedNearest reads it back within 30 s |
| PowerChart.Grid | src/components/PowerChart.tsx:30-34 | the sampled durations; GridShape and GridMember state their count, order and range |
| PowerChart.ValueAt | src/components/PowerChart.tsx:38-50 | the power a curve shows at a duration; GridPoint and SeriesFall state its values |
| PowerChart.Series | src/components/PowerChart.tsx:38-50 | the points of a curve over the grid; SeriesMembers states them in both directions and SeriesSpan their ends |
| PowerChart.AxisMin | src/components/PowerChart.tsx:382 | half CP, at least 50 W; AxisBounds and SeriesWithinAxis state the bound |
| PowerChart.AxisMax | src/components/PowerChart.tsx:383 | 105 % of Pmax rounded up to 100 W; AxisBounds and SeriesWithinAxis state the bound |
| RunningChart.CsReading | src/components/RunningChart.tsx:82-88 | a CS-D′ reading has the line's positive distance and pace times distance equal to time times 1000, and exists for every valid model and positive duration |
| RunningChart.PowerLawReading | src/components/RunningChart.tsx:90-101 | a power-law reading exists exactly for a valid model, is the reading at the power-law speed, and its distance is the positive power-law distance |
| RunningChart.AtSpeed | src/components/RunningChart.tsx:97-99 | the pace of a positive speed is positive and pace times speed is 1000 |
| RunningChart.SpeedFacts | src/components/RunningChart.tsx:97-99 | for a valid model the power-law speed is positive and the distance it covers is the power-law distance |
| RunningChart.RacePace | src/components/RunningChart.tsx:68-80 | a race pace exists exactly for a valid model with k + 1 ≠ 0; its time is positive and covers the distance, and pace times distance is time times 1000 |
| RunningChart.RacePaceOnCurve | src/components/RunningChart.tsx:68-101 | the race pace of the distance the power law covers in a time is the power-law pace at that time, so race paces lie on the chart's curve |
| RunningChart.CsPaceRises | src/components/RunningChart.tsx:82-88 | the CS-D′ pace slows strictly with duration and stays faster than the CS pace |
| RunningChart.PowerLawPaceRises | src/components/RunningChart.tsx:90-101 | with k < 0 the power-law pace slows strictly with duration |
| RunningChart.GenerateCurveData | src/components/RunningChart.tsx:103-137 | a refused fit gives two empty series; otherwise the two loops give the CS-D′ series and the power-law series |
| RunningChart.CsCurve | src/components/RunningChart.tsx:110-121 | the loop over every 10 s from 150 s to 3600 s gives the CS-D′ series |
| RunningChart.PowerLawCurve | src/components/RunningChart.tsx:123-134 | the loop over every minute from 180 s to 21600 s gives the power-law series |
| RunningChart.CsSeriesComplete | src/components/RunningChart.tsx:110-121 | for a valid model every sampled duration gives a point, point i being the reading at 150 + 10 i s |
| RunningChart.CsSeriesSlows | src/components/RunningChart.tsx:110-121 | along the CS-D′ series durations increase and paces slow strictly |
| RunningChart.PlSeriesComplete | src/components/RunningChart.tsx:123-134 | for a valid model every sampled duration gives a point, point i being the reading at 180 + 60 i s |
| RunningChart.PlSeriesSlows | src/components/RunningChart.tsx:123-134 | with k < 0 durations increase and paces slow strictly along the power-law series |
| RunningChart.SeqMin | src/components/RunningChart.tsx:164 | the minimum is one of the paces and no pace is below it |
| RunningChart.SeqMax | src/components/RunningChart.tsx:165 | the maximum is one of the paces and no pace is above it |
| RunningChart.PaceAxis | src/components/RunningChart.tsx:157-178 | the axis stays within 2:00 to 10:00 per km; without a valid model or points it is 2:00 to 6:00; every pace within 2:00 to 10:00 lies inside it; and 105 % of the LT1 maximum, when it fits under 10:00, is inside it |
| RunningChart.Paces | src/components/RunningChart.tsx:163 | the paces of the points, one for one |
| RunningChart.ChartAxes | src/components/RunningChart.tsx:157-178 | with the series of the chart, every point of either series with a pace from 2:00 to 10:00 per km is inside the axis, which stays within those bounds |
| RunningChart.FormatDistanceReads | src/components/RunningChart.tsx:60-65 | from 1000 m the label ends in "km" and reads back as the distance in tenths of a kilometre, rounded; below, as the rounded metres followed by "m" |
| RunningChart.TooltipModels | src/components/RunningChart.tsx:502-522 | for a valid model and a positive time the CS-D′ line is shown exactly up to 1020 s and the power-law line exactly from 840 s, so one or two lines appear and the model the calculator would use is always among them; each line shows its model's pace and distance |
| RunningChart.CsSeries | src/components/RunningChart.tsx:110-121 | the CS-D′ points of the sampled durations; CsSeriesComplete and CsSeriesSlows state them |
| RunningChart.PlSeries | src/components/RunningChart.tsx:123-134 | the power-law points; PlSeriesComplete and PlSeriesSlows state them |
| RunningChart.FormatDistance | src/components/RunningChart.tsx:60-65 | the distance label; FormatDistanceReads reads it back |
| RunningChart.TooltipLines | src/components/RunningChart.tsx:498-522 | the tooltip of a duration; TooltipModels states which lines appear |
| RunningChart.TooltipPaceSixty | src/components/RunningChart.tsx:29-34 | as written, a reading at 119.6 s/km shows "1:60" in the tooltip; the corrected display gives "2:00" |
| PdfLeadForm.MatchesEmailIff | src/components/PdfLeadForm.tsx:71 | the e-mail test accepts exactly the strings of the pattern: a non-empty run without white space or '@', one '@', a non-empty such run, a '.', and a non-empty such run |
| PdfLeadForm.AtIndex | src/components/PdfLeadForm.tsx:71 | the position found holds the first '@', and none is found exactly when there is no '@' |
| PdfLeadForm.ReportedEmptyIff | src/components/PdfLeadForm.tsx:62-82 | the errors recorded by validation are empty exactly when the form is complete: both names not blank, consent given, and for a coach a non-blank name and an e-mail of the pattern |
| PdfLeadForm.NonEmpty | src/components/PdfLeadForm.tsx:193-196 | an empty text becomes absent and any other text is kept as it is |
| PdfLeadForm.Lower | src/components/PdfLeadForm.tsx:187 | the same length, each upper-case ASCII letter turned into its lower-case letter and every other character kept |
| PdfLeadForm.RequestOf | src/components/PdfLeadForm.tsx:184-197 | the report weight is positive and is the entered weight when one was entered; the placeholder address ends in "@report.local"; the coach flag is copied and the coach e-mail is present exactly when one was typed |
| PdfLeadForm.LeadForm.constructor | src/components/PdfLeadForm.tsx:46-58 | a new form holds the defaults (palette "green") and no errors |
| PdfLeadForm.CollectErrors | src/components/PdfLeadForm.tsx:63-78 | the errors collected are exactly one per failed check with its message: blank name, blank surname, and for a coach a blank coach name and a blank or malformed coach e-mail, and a missing consent |
| PdfLeadForm.LeadForm.ValidateForm | src/components/PdfLeadForm.tsx:62-82 | the form is unchanged, the errors are replaced by exactly the failed checks with their messages, and the answer is true exactly when the form is complete |
| PdfLeadForm.LeadForm.HandleInputChange | src/components/PdfLeadForm.tsx:255-260 | the text field is set, nothing else in the form changes, and only that field's error is cleared |
| PdfLeadForm.LeadForm.HandleFileChange | src/components/PdfLeadForm.tsx:262-277 | no file changes nothing; a file over 2 MiB leaves the form and records the size error; otherwise the logo is set and its error cleared |
| PdfLeadForm.LeadForm.HandleCheckboxChange | src/components/PdfLeadForm.tsx:279-297 | the box is set true only when checked; unchecking "coach" also empties the coach's name, company, e-mail and logo; the box's error is cleared |
| PdfLeadForm.LeadForm.HandleSubmit | src/components/PdfLeadForm.tsx:162-253 | validation records the errors of the form; an incomplete form, invalid models or a failed generation leave the form as it was; a generated report is built from the form and the weight, and then the form returns to its defaults |
| PdfLeadForm.MatchesEmail | src/components/PdfLeadForm.tsx:71 | the e-mail pattern; MatchesEmailIff states the strings it accepts in both directions |
| Wallet.ValidAddressShape | src/components/dashboard/WalletManagement.tsx:60-67 | an ERC20 address is "0x" and 40 hex digits, a TRC20 address "T" and 33 letters or digits |
| Wallet.FormsDisjoint | src/components/dashboard/WalletManagement.tsx:60-67 | no address has both forms |
| Wallet.SaveWallet | src/components/dashboard/WalletManagement.tsx:53-88 | the "enter an address" refusal comes exactly for a blank input, the format refusal exactly for a non-blank input of neither form; otherwise the trimmed address, which is valid, is stored as an update exactly when a wallet exists |
| Wallet.SavedAddressResaves | src/components/dashboard/WalletManagement.tsx:53-88 | a stored address saved again is accepted unchanged, as an update |
| Wallet.StoredAddressesValid | src/components/dashboard/WalletManagement.tsx:60-67 | saving is accepted exactly when the trimmed input is a valid address |
| Wallet.ValidAddress | src/components/dashboard/WalletManagement.tsx:60-67 | the two address forms; ValidAddressShape spells them out and FormsDisjoint separates them |
| LevelStats.CommissionRatesShape | src/components/dashboard/LevelStats.tsx:18-34 | rates exist for exactly levels 1 to 15, are positive, and add up to 50 % |
| LevelStats.Find | src/components/dashboard/LevelStats.tsx:56 | the row found is the first fetched row of that level, and none is found exactly when no row has that level |
| LevelStats.StatOf | src/components/dashboard/LevelStats.tsx:55-61 | the row carries its level, with zero partners and zero earnings when no row of that level was fetched |
| LevelStats.FullStats | src/components/dashboard/LevelStats.tsx:54-62 | fifteen rows, row i for level i + 1 (a level with a commission rate), each the row of its level |
| LevelStats.FullStatsCopies | src/components/dashboard/LevelStats.tsx:54-62 | a level fetched once with both values has them copied into its row |
| LevelStats.FindIgnores | src/components/dashboard/LevelStats.tsx:56 | a fetched row of another level does not change what is found |
| LevelStats.FullStatsIgnores | src/components/dashboard/LevelStats.tsx:54-62 | a fetched row of a level outside 1 to 15 does not change the table |
| LevelStats.TotalPartnersZeroIff | src/components/dashboard/LevelStats.tsx:72-73 | with no negative count the partner total is non-negative, at least each row's count, and zero exactly when every row is dimmed |
| LevelStats.TotalPartners | src/components/dashboard/LevelStats.tsx:72 | the sum of the partner counts; TotalPartnersZeroIff states when it is 0 |
| LevelStats.TotalEarnings | src/components/dashboard/LevelStats.tsx:73 | the sum of the earnings |
| Text.Trim | src/components/dashboard/WalletManagement.tsx:53 | the result is a contiguous slice of the input with no white space at either end |
| Text.TrimOfTrimmed | src/components/PdfLeadForm.tsx:65 | a string with no white space at either end is left unchanged |
| Text.TrimIdempotent | src/components/dashboard/WalletManagement.tsx:53 | trimming twice is trimming once |
| Text.TrimEmptyIff | src/components/PdfLeadForm.tsx:65-70 | a field trims to empty exactly when every character is white space, the condition the form rejects |
| Text.NatToString | src/components/RunningSustainableTable.tsx:48 | the decimal spelling of a number is non-empty, all digits, with no leading zero |
| Text.IntToString | src/components/RunningSustainableTable.tsx:46 | a negative number is spelled with a minus sign before its digits |
| Text.DigitsValueOfNatToString | src/components/RunningSustainableTable.tsx:48 | the digits printed for a number spell that number |
| Text.PadTwo | src/components/RunningSustainableTable.tsx:46 | padding to two places keeps the string as a suffix and fills only with zeros |
| Text.PadTwoValue | src/components/RunningSustainableTable.tsx:46 | a zero-padded number still spells the same number |
| Text.ReadNatToString | src/components/RunningSustainableTable.tsx:48 | reading digits back from a printed number followed by a non-digit gives the number and the rest |
| Text.ReadPadTwo | src/components/RunningSustainableTable.tsx:46 | reading back a zero-padded number gives the number and the rest |
| Text.ToFixed | src/components/PowerSustainableTable.tsx:120 | a fixed-point display is non-empty and starts with a minus sign exactly when the value is negative |
| Text.ToFixedNearest | src/components/PowerSustainableTable.tsx:120 | a non-negative fixed-point display reads back within half a unit of the last place of the value |
| Text.ReadToFixed | src/components/PowerSustainableTable.tsx:120 | a non-negative fixed-point display reads back as the value scaled and rounded to the nearest unit |

## Left out

- Floating point: every JavaScript number is an exact real here. The tolerances 1e-12 and 1e-15 used by the fitters and the solvers are exact constants, and rounding error is not modelled. NaN is modelled, as `None` or as `Number.NaN`, only where the code branches on it.
- PowerFit.Fit: requires `Admissible`, meaning a positive threshold duration and, when the long test is on, a positive long-test power. Otherwise `Math.log` yields NaN or an infinity, which the real-valued model does not carry. The sliders in src/components/PowerCurveModeler.tsx:154-352 only offer positive values.
- PowerFit.FitPowerModels: same `Admissible` precondition as `PowerFit.Fit`.
- RunningFit.Fit: requires `Admissible`, meaning that when the long test is used (on, and longer than 20 minutes) its distance parses as a positive number. Otherwise the logarithm is NaN.
- RunningFit.FitRunningModels: same `Admissible` precondition as `RunningFit.Fit`.
- RunningFit.BuildRegressionPoints: same `Admissible` precondition as `RunningFit.Fit`.
- PowerCalculator.TimeFromPowerSolved: requires an exponent other than 1. With exponent 1 the source raises to an infinite power; `PowerCalculator.PowerLawTimeFor` returns `None` there instead.
- RunningCurves.PowerLawDuration: returns `None` when k + 1 is 0. There the source divides by zero.
- Body weight is taken as positive. The slider in src/components/PowerCurveModeler.tsx:154-160 ranges from 40 to 120 kg.
- RunningAthlete.CalculateProfile: requires a valid fit. The card is only shown for a valid model. The gender, weight and rating arguments, which the classifier never reads, are dropped.
- Profile-name lookups are modelled as chains of cases. In JavaScript, `translations[key] || key` also returns members inherited from `Object.prototype`, such as "constructor"; that is not modelled.
- ModelParameters: only the `toFixed` strings of the parameter panel are left out; every value they display is modelled.
- PdfLeadForm: the PDF itself, the blob, the download, the html2canvas capture, `setTimeout`, the loading and open flags and the toasts are left out. The file read is immediate. Whether the report was produced is the parameter `produced`. A cleared error removes its key where the source sets it to `undefined`; both render the same, and `validateForm` rebuilds the map.
- PdfLeadForm.Lower: lower-cases ASCII letters only, where JavaScript `toLowerCase` covers all of Unicode.
- Wallet and LevelStats: the database reads and writes are left out. Their results are parameters. `Number()` on strings is not modelled; counts are numbers already. `|| 0` on NaN is not modelled.
- PhysiologicalProfile.BarWidth: a negative index gives a negative width, which the browser clamps; the clamp is not modelled.
- Rendering is left out: translations, colours, themes, console logging, layout. The glue that turns minutes and seconds inputs into seconds in src/components/RunningCurveModeler.tsx is also left out.
- Modelled as written rather than left out: the cycling report always classifies the athlete as male, the running report's half marathon is 21097 m where the calculators use 21097.5 m, the power chart's CP-W′ series ends at 3540 s, the running report, the running sustainable table, the running zone table and the running chart's tooltip show their times and paces with their own floor-then-round formatters (a seconds field of 60 included), and the report's table differs from the sustainable-power table at 5 s and 180 s (`PdfReport.SitesDiffer`).

## Findings

| source | as written | input that shows it | evidently intended | confidence | as-written member | corrected member |
|---|---|---|---|---|---|---|
| src/utils/precisionCalculations.ts:226-228 | whole minutes by floor, seconds by rounding the remainder | 119.6 s/km shows "1:60" | "2:00", with the seconds field below 60 | high, not executed | Clock.FormatPaceSixty | Clock.FormatPaceCorrectedReads |
| src/components/RunningSustainableTable.tsx:41-49 | hours and minutes by floor, seconds by rounding the remainder | 3599.6 s shows "59:60" | "1:00:00" | high, not executed | Clock.FormatClockSixty | Clock.FormatClockCorrectedReads |
| src/components/RunningPdfReportGenerator.tsx:251-269 | the report's own copies of the same floor-then-round formatters | a predicted 3599.6 s shows "59:60", a pace of 119.6 s/km "1:60" | "1:00:00" and "2:00" | high, not executed | RunningPdfReport.PredictionTimeSixty | Clock.FormatClockCorrectedReads |
| src/utils/precisionCalculations.ts:233-240 | same floor-then-round split | 119.6 s shows "1m 60s" | "2m 0s" | high, not executed | Clock.FormatElapsedSixty | Clock.FormatElapsedCorrectedReads |
| src/utils/powerPrecisionCalculations.ts:39-41 | hours by floor, minutes by rounding the remainder | 7170 s shows "1h 60m" | "2h", with the minutes field below 60 | high, not executed | PowerFit.FormatDurationSixtyMinutes | PowerFit.FormatDurationCorrectedNearest |
| src/components/PowerChart.tsx:21-23 | hours by floor, minutes by rounding the remainder; latent in the chart, whose grid durations from an hour on are whole minutes (PowerChart.GridLabelsAgree) | formatTime(7170) returns "1h 60m" | "2h 0m" | high for the formatter, not executed | PowerChart.FormatTimeSixtyMinutes | PowerChart.FormatTimeCorrectedNearest |
| src/components/RunningZonesTable.tsx:32-37 | the zone table's own copy of the floor-then-round pace formatter | a 3-minute pace of 119.6 s/km shows "< 1:60" in the last zone | "< 2:00" | high, not executed | RunningZones.ZonePaceSixty | Clock.FormatPaceCorrectedReads |
| src/components/RunningSustainableTable.tsx:52-57 | the sustainable table's own copy of the floor-then-round pace formatter | a row pace of 119.6 s/km shows "1:60" | "2:00" | high, not executed | RunningSustainable.PaceCellSixty | Clock.FormatPaceCorrectedReads |
| src/components/RunningChart.tsx:29-34 | the chart's own copy of the floor-then-round pace formatter | a tooltip reading at 119.6 s/km shows "1:60" | "2:00" | high, not executed | RunningChart.TooltipPaceSixty | Clock.FormatPaceCorrectedReads |
