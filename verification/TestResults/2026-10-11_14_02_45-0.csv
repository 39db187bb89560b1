TestResult.DisplayName,TestResult.Outcome,TestResult.Duration,TestResult.ResourceCount,RandomSeed
ShapeBound.GapAgainst (correctness),Passed,00:00:00.2056334,216782,5
ShapeBound.DotOfGap (correctness),Passed,00:00:00.1960466,108184,5
ShapeBound.GapOrthogonal (correctness),Passed,00:00:00.1488397,364277,5
