/** Fixed vocabularies of the lexical scorer, in source order, duplicates kept:
    every list entry is counted on its own, so an entry listed twice counts twice.
    The valence lists are split by source line and the technical terms by field,
    as the source lays them out. */
module Vocabulary {
  import Scoring

  /** Connectives whose exact-token occurrences raise the logic score. */
  const LogicWords: seq<string> := [
    "因为", "所以", "因此", "然而", "但是", "尽管", "既然", "故而",
    "由此可见", "综上所述", "首先", "其次", "再者", "最后", "一方面", "另一方面",
    "相反", "反之", "倘若", "假如", "假设", "那么", "则", "并且",
    "而且", "同时", "此外", "另外", "不仅如此", "更重要的是", "关键", "本质上",
    "实质上", "归根结底", "简而言之", "总而言之", "也就是说", "换言之", "例如", "比如",
    "举例来说", "为例", "相比之下", "相对而言", "毫无疑问", "显然", "显然地", "必然",
    "必定", "不可避免地", "结果", "导致", "引起", "造成", "产生", "源于",
    "源自"
  ]

  /** Positive-valence words, counted as substrings: scoring_system.py line 209. */
  const PositiveRow1: seq<string> := ["必须", "应该", "证明", "显然", "确保", "保障", "有益", "促进", "提升", "增强"]

  /** Positive-valence words, counted as substrings: scoring_system.py line 210. */
  const PositiveRow2: seq<string> := ["改善", "进步", "发展", "创新", "突破", "优势", "益处", "价值", "意义", "重要"]

  /** Positive-valence words, counted as substrings: scoring_system.py line 211. */
  const PositiveRow3: seq<string> := ["必要", "关键", "核心", "根本", "有利", "积极", "正面", "建设性", "可行性", "可靠性"]

  /** Positive-valence words, counted as substrings: scoring_system.py line 212. */
  const PositiveRow4: seq<string> := ["稳定", "安全", "高效", "有效", "成功", "成就", "胜利", "解决", "克服", "超越"]

  /** Positive-valence words, counted as substrings: scoring_system.py line 213. */
  const PositiveRow5: seq<string> := ["领先", "卓越", "优秀", "出色", "显著", "明显", "充分", "全面", "完善", "成熟"]

  const PositiveWords: seq<string> := PositiveRow1 + PositiveRow2 + PositiveRow3 + PositiveRow4 + PositiveRow5

  /** Negative-valence words, counted as substrings: scoring_system.py line 216. */
  const NegativeRow1: seq<string> := ["不能", "不该", "危害", "破坏", "威胁", "损害", "阻碍", "削弱", "限制", "问题"]

  /** Negative-valence words, counted as substrings: scoring_system.py line 217. */
  const NegativeRow2: seq<string> := ["缺陷", "不足", "缺点", "弊端", "风险", "危机", "挑战", "困难", "障碍", "矛盾"]

  /** Negative-valence words, counted as substrings: scoring_system.py line 218. */
  const NegativeRow3: seq<string> := ["冲突", "对立", "负面", "消极", "不利", "有害", "危险", "不可行", "不可靠", "不稳定"]

  /** Negative-valence words, counted as substrings: scoring_system.py line 219. */
  const NegativeRow4: seq<string> := ["不安全", "低效", "无效", "失败", "挫折", "困境", "恶化", "衰退", "落后", "劣势"]

  /** Negative-valence words, counted as substrings: scoring_system.py line 220. */
  const NegativeRow5: seq<string> := ["缺乏", "缺失", "不足", "不充分", "不完善", "不成熟", "复杂", "混乱", "模糊", "不确定"]

  const NegativeWords: seq<string> := NegativeRow1 + NegativeRow2 + NegativeRow3 + NegativeRow4 + NegativeRow5

  const ResearchTerms: seq<string> := [
    "量化", "实证", "辩证法", "方法论", "范式", "理论", "原理", "机理",
    "本质", "内涵", "外延", "变量", "因果关系", "相关性", "回归分析", "定理",
    "公理", "标准差", "显著性", "置信区间", "假设检验", "控制变量", "自变量", "因变量",
    "中介变量", "调节变量", "信度", "效度", "分析", "抽样", "样本", "总体",
    "参数", "统计量", "正态分布", "偏态", "峰度", "方差分析", "协方差", "研究",
    "回归系数", "标准化", "概念化", "操作化", "理论框架", "研究设计", "文献综述", "元分析",
    "系统评价", "报告", "质性研究", "定量研究", "混合方法", "三角验证", "扎根理论", "内容分析",
    "话语分析", "民族志", "现象学"
  ]

  const PsychologyTerms: seq<string> := [
    "心理学", "潜意识", "认知失调", "条件反射", "社会认同", "自我实现", "心理防御机制", "集体无意识",
    "认知行为疗法", "情绪智力", "人格特质", "依恋理论", "操作性条件反射"
  ]

  const EconomicsTerms: seq<string> := [
    "经济学", "机会成本", "边际效用", "市场失灵", "外部性", "通货膨胀", "货币政策", "财政政策",
    "比较优势", "博弈论", "供需曲线", "凯恩斯主义", "货币主义"
  ]

  const ComputerScienceTerms: seq<string> := [
    "计算机科学", "机器学习", "神经网络", "算法复杂度", "数据结构", "递归函数", "面向对象", "云计算",
    "区块链", "分布式系统", "深度学习", "自然语言处理", "计算机视觉"
  ]

  const BiologyTerms: seq<string> := [
    "生物学", "基因表达", "自然选择", "细胞分裂", "生态系统", "生物多样性", "光合作用", "DNA复制",
    "蛋白质合成", "进化论", "遗传密码", "免疫应答", "神经递质"
  ]

  const PhysicsTerms: seq<string> := [
    "物理学", "量子纠缠", "相对论", "熵增原理", "电磁感应", "波粒二象性", "热力学定律", "引力透镜",
    "夸克模型", "弦理论", "暗物质", "宇宙膨胀", "量子隧穿"
  ]

  const LawTerms: seq<string> := [
    "法学", "无罪推定", "司法审查", "程序正义", "实体权利", "法律保留", "比例原则", "法律漏洞",
    "司法解释", "法律事实", "法律行为", "法律关系", "法律冲突"
  ]

  const EducationTerms: seq<string> := [
    "教育学", "建构主义", "多元智能", "形成性评价", "翻转课堂", "差异化教学", "学习迁移", "教育公平",
    "全纳教育", "终身学习", "课程统整", "教学反思", "教育评价"
  ]

  const MedicineTerms: seq<string> := [
    "医学", "病理", "生理", "循证医学", "免疫疗法", "基因编辑", "精准医疗", "抗生素耐药",
    "流行病学", "症状管理", "预防医学", "康复治疗", "姑息治疗", "医患沟通"
  ]

  const PoliticsTerms: seq<string> := [
    "政治学", "权力制衡", "民主集中制", "软实力", "地缘政治", "意识形态", "公共政策", "治理能力",
    "公民社会", "政治社会化", "选举制度", "政治参与", "政治文化"
  ]

  const EnvironmentTerms: seq<string> := [
    "环境科学", "碳中和", "生物降解", "生态系统服务", "可持续发展", "碳足迹", "生物多样性", "环境承载力",
    "污染治理", "气候变化", "可再生能源", "生态修复", "环境正义"
  ]

  /** Technical terms of all fields, counted as substrings. */
  const TechnicalTerms: seq<string> :=
    ResearchTerms
    + PsychologyTerms
    + EconomicsTerms
    + ComputerScienceTerms
    + BiologyTerms
    + PhysicsTerms
    + LawTerms
    + EducationTerms
    + MedicineTerms
    + PoliticsTerms
    + EnvironmentTerms

  /** The word lists the lexical scorer is defined with. */
  const Standard: Scoring.Lexicon := Scoring.Lexicon(LogicWords, PositiveWords, NegativeWords, TechnicalTerms)
}
