TestResult.DisplayName,TestResult.Outcome,TestResult.Duration,TestResult.ResourceCount,RandomSeed
ShapeBound.GapOrthogonal (correctness),Failed,00:00:00.8638913,2011279,1
ShapeBound.GapAgainst (correctness),Passed,00:00:00.3136197,634676,1
ShapeBound.DotOfGap (correctness),Passed,00:00:00.3042638,638172,1
