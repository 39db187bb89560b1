TestResult.DisplayName,TestResult.Outcome,TestResult.Duration,TestResult.ResourceCount,RandomSeed
ShapeBound.GapAgainst (correctness),Passed,00:00:00.2460663,215437,0
ShapeBound.DotOfGap (correctness),Passed,00:00:00.2267212,110864,0
ShapeBound.GapOrthogonal (correctness),Passed,00:00:00.1295186,342749,0
