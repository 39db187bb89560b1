TestResult.DisplayName,TestResult.Outcome,TestResult.Duration,TestResult.ResourceCount,RandomSeed
ShapeBound.GapAgainst (correctness),Passed,00:00:00.1277537,217199,3
ShapeBound.GapOrthogonal (correctness),Passed,00:00:00.1154412,365268,3
ShapeBound.DotOfGap (correctness),Passed,00:00:00.0962554,79915,3
